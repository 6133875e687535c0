/** Building a configuration from a system template and enterprise settings
    (internal/manager/policy_configuration.go, internal/manager/policy_config.go). */
module PolicyBuild {
  import opened Prelude
  import opened Sorting
  import opened Policy
  import opened PolicyComposition
  import opened PolicyValidation

  datatype RuleCondition = RuleCondition(field: string, operator: string, value: string)

  datatype TemplateBypass = TemplateBypass(reason: string, expiresAt: int, conditions: seq<RuleCondition>)

  datatype TemplateRule = TemplateRule(ruleId: int, conditions: seq<RuleCondition>)

  datatype TemplateTarget = TemplateTarget(ruleId: int, target: string, conditions: seq<RuleCondition>)

  datatype Template = Template(release: string, scalars: Scalars, setup: map<string, string>, ips: seq<string>, paths: seq<string>,
                               bypasses: seq<TemplateBypass>, before: seq<TemplateRule>, after: seq<TemplateRule>,
                               tags: seq<string>, targets: seq<TemplateTarget>, customRules: string)

  /** Enterprise settings; the mode of the scalars is the requested one. */
  datatype Settings = Settings(source: ScalarSource, overrides: Option<Scalars>, scalars: Scalars, ips: seq<string>,
                               paths: seq<string>, exclusions: seq<Exclusion>, customRules: string)

  /** Custom rule texts: the rule lines of a safe text, and what is read from a line. */
  datatype RuleText = RuleText(parse: string -> Option<seq<string>>, id: string -> int, phase: string -> string, severity: string -> string)

  // ---------------------------------------------------------------- scalars

  /** resolvePolicyScalars. */
  function Resolve(t: Template, s: Settings): Option<Settings> {
    match s.source
    case Inherit =>
      Some(s.(scalars := t.scalars.(executing := if t.scalars.executing == 0 then t.scalars.blocking else t.scalars.executing,
                                    outbound := if t.scalars.outbound == 0 then 4 else t.scalars.outbound,
                                    sampling := if t.scalars.sampling == 0 then 100 else t.scalars.sampling)))
    case Custom => if s.overrides.None? then None else Some(s.(scalars := s.overrides.value))
    case Unset => Some(s)
  }

  /** Zeros are filled in from the template and the defaults. */
  function Filled(t: Scalars, s: Scalars): Scalars {
    var blocking := if s.blocking == 0 then t.blocking else s.blocking;
    s.(blocking := blocking, executing := if s.executing == 0 then blocking else s.executing,
       inbound := if s.inbound == 0 then t.inbound else s.inbound,
       outbound := if s.outbound == 0 then 4 else s.outbound, sampling := if s.sampling == 0 then 100 else s.sampling)
  }

  // ---------------------------------------------------------------- exclusions

  /** An exclusion before it gets its place in the list, and whether it is given a generated id. */
  datatype Draft = Draft(item: Exclusion, allocate: bool)

  const Address := "REMOTE_ADDR"
  const Uri := "REQUEST_URI"
  const IpMatch := "@ipMatch"
  const BeginsWith := "@beginsWith"

  function LegacyBypass(scope: Scope, field: string, operator: string): string -> Draft {
    (value: string) =>
      Draft(Exclusion("", scope, EngineBypass, BeforeCrs, 0, "", "", 0, "", None, true, true, 0, [Condition(field, operator, value, 0)]), true)
  }

  function Conditions(s: seq<RuleCondition>): (r: seq<Condition>)
    ensures |r| == |s|
  {
    seq(|s|, i requires 0 <= i < |s| => Condition(s[i].field, s[i].operator, s[i].value, i))
  }

  function BypassDraft(b: TemplateBypass): Draft {
    Draft(Exclusion("", System, EngineBypass, BeforeCrs, 0, "", "", 0, b.reason, Some(b.expiresAt), true, false, 0, Conditions(b.conditions)), true)
  }

  function RuleDraft(stage: Stage): TemplateRule -> Draft {
    (r: TemplateRule) =>
      Draft(Exclusion("", System, RuleExclusion, stage, r.ruleId, "", "", 0, "", None, true, false, 0, Conditions(r.conditions)), r.conditions != [])
  }

  function TagDraft(tag: string): Draft {
    Draft(Exclusion("", System, TagExclusion, AfterCrs, 0, tag, "", 0, "", None, true, false, 0, []), false)
  }

  function TargetDraft(t: TemplateTarget): Draft {
    var stage := if t.conditions == [] then AfterCrs else BeforeCrs;
    Draft(Exclusion("", System, TargetExclusion, stage, t.ruleId, "", t.target, 0, "", None, true, false, 0, Conditions(t.conditions)), t.conditions != [])
  }

  function OwnDraft(x: Exclusion): Draft {
    Draft(x.(id := "", scope := Enterprise), x.stage == BeforeCrs && x.conditions != [])
  }

  function SystemDrafts(t: Template): seq<Draft> {
    Map(LegacyBypass(System, Address, IpMatch), t.ips) + Map(LegacyBypass(System, Uri, BeginsWith), t.paths)
    + Map(BypassDraft, t.bypasses) + Map(RuleDraft(BeforeCrs), t.before) + Map(RuleDraft(AfterCrs), t.after)
    + Map(TagDraft, t.tags) + Map(TargetDraft, t.targets)
  }

  function EnterpriseDrafts(s: Settings): seq<Draft> {
    Map(LegacyBypass(Enterprise, Address, IpMatch), s.ips) + Map(LegacyBypass(Enterprise, Uri, BeginsWith), s.paths)
    + Map(OwnDraft, s.exclusions)
  }

  function Needed(drafts: seq<Draft>): nat {
    if drafts == [] then 0 else Needed(drafts[..|drafts| - 1]) + (if drafts[|drafts| - 1].allocate then 1 else 0)
  }

  function Place(d: Draft, order: nat, id: int): Exclusion {
    d.item.(order := order, generatedId := if d.allocate then id else d.item.generatedId)
  }

  /** The list a run of appends makes: orders count items, generated ids count those that need one. */
  function Placed(drafts: seq<Draft>): (r: seq<Exclusion>)
    ensures |r| == |drafts|
  {
    if drafts == [] then []
    else
      var front := drafts[..|drafts| - 1];
      Placed(front) + [Place(drafts[|drafts| - 1], |front|, GeneratedMin + Needed(front))]
  }

  lemma {:induction false} PlacedSnoc(drafts: seq<Draft>, d: Draft)
    ensures Placed(drafts + [d]) == Placed(drafts) + [Place(d, |drafts|, GeneratedMin + Needed(drafts))]
    ensures Needed(drafts + [d]) == Needed(drafts) + (if d.allocate then 1 else 0)
  {
    var all := drafts + [d];
    assert all[..|all| - 1] == drafts && all[|all| - 1] == d;
  }

  lemma MapSnoc<T>(drafts: seq<Draft>, items: seq<T>, draft: T -> Draft, i: nat)
    requires i < |items|
    ensures drafts + Map(draft, items[..i + 1]) == drafts + Map(draft, items[..i]) + [draft(items[i])]
  {
  }

  method AppendDrafts<T>(items: seq<T>, draft: T -> Draft, list: seq<Exclusion>, nextId: int, ghost drafts: seq<Draft>)
    returns (longer: seq<Exclusion>, next: int)
    requires list == Placed(drafts) && nextId == GeneratedMin + Needed(drafts)
    ensures longer == Placed(drafts + Map(draft, items)) && next == GeneratedMin + Needed(drafts + Map(draft, items))
  {
    longer, next := list, nextId;
    assert drafts + Map(draft, items[..0]) == drafts;
    for i := 0 to |items|
      invariant longer == Placed(drafts + Map(draft, items[..i])) && next == GeneratedMin + Needed(drafts + Map(draft, items[..i]))
    {
      var d := draft(items[i]);
      MapSnoc(drafts, items, draft, i);
      PlacedSnoc(drafts + Map(draft, items[..i]), d);
      longer := longer + [Place(d, |longer|, next)];
      if d.allocate { next := next + 1; }
    }
    assert items[..|items|] == items;
  }

  method AppendBypasses(scope: Scope, ips: seq<string>, paths: seq<string>, list: seq<Exclusion>, nextId: int, ghost drafts: seq<Draft>)
    returns (longer: seq<Exclusion>, next: int)
    requires list == Placed(drafts) && nextId == GeneratedMin + Needed(drafts)
    ensures var all := drafts + Map(LegacyBypass(scope, Address, IpMatch), ips) + Map(LegacyBypass(scope, Uri, BeginsWith), paths);
            longer == Placed(all) && next == GeneratedMin + Needed(all)
  {
    longer, next := AppendDrafts(ips, LegacyBypass(scope, Address, IpMatch), list, nextId, drafts);
    longer, next := AppendDrafts(paths, LegacyBypass(scope, Uri, BeginsWith), longer, next, drafts + Map(LegacyBypass(scope, Address, IpMatch), ips));
  }

  method AppendRules(t: Template, list: seq<Exclusion>, nextId: int, ghost drafts: seq<Draft>) returns (longer: seq<Exclusion>, next: int)
    requires list == Placed(drafts) && nextId == GeneratedMin + Needed(drafts)
    ensures var all := drafts + Map(BypassDraft, t.bypasses) + Map(RuleDraft(BeforeCrs), t.before) + Map(RuleDraft(AfterCrs), t.after);
            longer == Placed(all) && next == GeneratedMin + Needed(all)
  {
    longer, next := AppendDrafts(t.bypasses, BypassDraft, list, nextId, drafts);
    ghost var d := drafts + Map(BypassDraft, t.bypasses);
    longer, next := AppendDrafts(t.before, RuleDraft(BeforeCrs), longer, next, d);
    longer, next := AppendDrafts(t.after, RuleDraft(AfterCrs), longer, next, d + Map(RuleDraft(BeforeCrs), t.before));
  }

  method AppendSystem(t: Template) returns (list: seq<Exclusion>, next: int)
    ensures list == Placed(SystemDrafts(t)) && next == GeneratedMin + Needed(SystemDrafts(t))
  {
    ghost var none: seq<Draft> := [];
    list, next := AppendBypasses(System, t.ips, t.paths, [], GeneratedMin, none);
    ghost var d := Map(LegacyBypass(System, Address, IpMatch), t.ips) + Map(LegacyBypass(System, Uri, BeginsWith), t.paths);
    assert none + Map(LegacyBypass(System, Address, IpMatch), t.ips) == Map(LegacyBypass(System, Address, IpMatch), t.ips);
    list, next := AppendRules(t, list, next, d);
    d := d + Map(BypassDraft, t.bypasses) + Map(RuleDraft(BeforeCrs), t.before) + Map(RuleDraft(AfterCrs), t.after);
    list, next := AppendDrafts(t.tags, TagDraft, list, next, d);
    list, next := AppendDrafts(t.targets, TargetDraft, list, next, d + Map(TagDraft, t.tags));
  }

  /** Appends the system layer, then the enterprise layer. */
  method BuildExclusions(t: Template, s: Settings) returns (list: seq<Exclusion>)
    ensures list == Placed(SystemDrafts(t) + EnterpriseDrafts(s))
  {
    var next;
    list, next := AppendSystem(t);
    ghost var system := SystemDrafts(t);
    ghost var ips, paths, own := Map(LegacyBypass(Enterprise, Address, IpMatch), s.ips), Map(LegacyBypass(Enterprise, Uri, BeginsWith), s.paths), Map(OwnDraft, s.exclusions);
    list, next := AppendBypasses(Enterprise, s.ips, s.paths, list, next, system);
    list, next := AppendDrafts(s.exclusions, OwnDraft, list, next, system + ips + paths);
    Regroup(system, ips, paths, own);
  }

  lemma Regroup(a: seq<Draft>, b: seq<Draft>, c: seq<Draft>, d: seq<Draft>)
    ensures a + b + c + d == a + (b + c + d)
  {
  }

  // ---------------------------------------------------------------- custom rules

  function RuleOf(g: RuleText, scope: Scope): string -> CustomRule {
    (line: string) =>
      CustomRule("", scope, g.id(line), "", g.phase(line), g.severity(line), line, "", true, !InNamespace(scope, g.id(line)), 0)
  }

  function NumberRules(s: seq<CustomRule>): (r: seq<CustomRule>)
    ensures |r| == |s| && NumberedRules(r)
  {
    seq(|s|, i requires 0 <= i < |s| => s[i].(order := i))
  }

  function Rules(g: RuleText, t: Template, s: Settings): Option<seq<CustomRule>> {
    match (g.parse(t.customRules), g.parse(s.customRules))
    case (Some(a), Some(b)) => Some(NumberRules(Map(RuleOf(g, System), a) + Map(RuleOf(g, Enterprise), b)))
    case _ => None
  }

  // ---------------------------------------------------------------- the configuration

  /** Setup items of a template in the order its map was gone through. */
  function SetupItems(keys: set<string>, t: Template, names: seq<string>): seq<Setup>
    requires forall i :: 0 <= i < |names| ==> names[i] in t.setup
  {
    Map((key: string) => Setup(key, if key in t.setup then t.setup[key] else "", System), Filter((key: string) => key !in keys, names))
  }

  /** Any order of the keys of a map. */
  predicate Enumerates(names: seq<string>, m: map<string, string>) {
    multiset(names) == multiset(m.Keys)
  }

  /** Before normalisation. */
  function Draft0(g: RuleText, keys: set<string>, owner: (string, string), t: Template, s: Settings, names: seq<string>): Option<Configuration>
    requires forall i :: 0 <= i < |names| ==> names[i] in t.setup
  {
    match Rules(g, t, s)
    case None => None
    case Some(rules) =>
      Some(Configuration("", owner.0, owner.1, t.release, 1, Filled(t.scalars, s.scalars), "", SetupItems(keys, t, names),
                         Placed(SystemDrafts(t) + EnterpriseDrafts(s)), rules, []))
  }

  /** The built configuration, or nothing when a rule text is refused: normalised, with all item ids blank. */
  function Built(f: Cleanup, g: RuleText, keys: set<string>, owner: (string, string), t: Template, s: Settings, names: seq<string>): Option<Configuration>
    requires forall i :: 0 <= i < |names| ==> names[i] in t.setup
  {
    match Draft0(g, keys, owner, t, s, names)
    case None => None
    case Some(c) => Some(BlankIds(Normalize(f, c)))
  }
}
