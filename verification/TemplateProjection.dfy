/** Projecting a system configuration back to its template and building it again
    (internal/manager/policy_configuration.go). */
module TemplateProjection {
  import opened Prelude
  import opened Sorting
  import opened Policy
  import opened PolicyComposition
  import opened PolicyValidation
  import opened PolicyBuild
  import opened PolicyLayers
  import opened PolicyLists
  import opened PolicyEdits
  import opened PolicyRuns
  import opened PolicyProjection

  // ---------------------------------------------------------------- the projection

  /** Which list of the template a system exclusion goes to; 7 is none. */
  function Slot(x: Exclusion): nat {
    if x.scope != System || !x.enabled then 7
    else if SingleLegacy(x) then (if IsPath(x) then 1 else if IsIp(x) then 0 else 7)
    else match x.kind
      case EngineBypass => if x.expiresAt.Some? then 2 else 7
      case RuleExclusion => if x.stage == BeforeCrs then 3 else 4
      case TagExclusion => 5
      case TargetExclusion => 6
  }

  function Plain(c: Condition): RuleCondition { RuleCondition(c.field, c.operator, c.value) }

  function AsBypass(x: Exclusion): TemplateBypass {
    TemplateBypass(x.reason, if x.expiresAt.Some? then x.expiresAt.value else 0, Map(Plain, x.conditions))
  }

  function AsRule(x: Exclusion): TemplateRule { TemplateRule(x.ruleId, Map(Plain, x.conditions)) }

  function AsTag(x: Exclusion): string { x.ruleTag }

  function AsTarget(x: Exclusion): TemplateTarget { TemplateTarget(x.ruleId, x.target, Map(Plain, x.conditions)) }

  function SystemEnabled(x: CustomRule): bool { x.scope == System && x.enabled }

  /** ApplyToSystemPolicyTemplate. */
  function Restored(core: Scalars -> map<string, string>, join: seq<string> -> string, c: Configuration, t: Template): Template {
    t.(scalars := c.scalars, setup := SetupMap(core, c),
       ips := Map(FirstValue, Filter(Tagged(Slot, 0), c.exclusions)), paths := Map(FirstValue, Filter(Tagged(Slot, 1), c.exclusions)),
       bypasses := Map(AsBypass, Filter(Tagged(Slot, 2), c.exclusions)), before := Map(AsRule, Filter(Tagged(Slot, 3), c.exclusions)),
       after := Map(AsRule, Filter(Tagged(Slot, 4), c.exclusions)), tags := Map(AsTag, Filter(Tagged(Slot, 5), c.exclusions)),
       targets := Map(AsTarget, Filter(Tagged(Slot, 6), c.exclusions)),
       customRules := join(Map(RuleLine, Filter(SystemEnabled, c.customRules))))
  }

  // ---------------------------------------------------------------- slots of built exclusions

  lemma AddressSlot(f: Cleanup, value: string, order: nat, id: int)
    requires PlainNames(f)
    ensures var x := Item(f, LegacyBypass(System, Address, IpMatch)(value), order, id); Slot(x) == 0 && FirstValue(x) == f.trim(value)
  {
    assert Address[2] != Uri[2];
  }

  lemma PathSlot(f: Cleanup, value: string, order: nat, id: int)
    requires PlainNames(f)
    ensures var x := Item(f, LegacyBypass(System, Uri, BeginsWith)(value), order, id); Slot(x) == 1 && FirstValue(x) == f.trim(value)
  {
  }

  lemma BypassSlot(f: Cleanup, b: TemplateBypass, order: nat, id: int)
    ensures Slot(Item(f, BypassDraft(b), order, id)) == 2
  {
  }

  lemma RuleSlot(f: Cleanup, stage: Stage, r: TemplateRule, order: nat, id: int)
    ensures Slot(Item(f, RuleDraft(stage)(r), order, id)) == if stage == BeforeCrs then 3 else 4
  {
  }

  lemma TagSlot(f: Cleanup, tag: string, order: nat, id: int)
    ensures Slot(Item(f, TagDraft(tag), order, id)) == 5
  {
  }

  lemma TargetSlot(f: Cleanup, t: TemplateTarget, order: nat, id: int)
    ensures Slot(Item(f, TargetDraft(t), order, id)) == 6
  {
  }

  // ---------------------------------------------------------------- drafts of restored entries

  /** Conditions that went through a configuration clean up to the same conditions. */
  lemma ConditionsAgain(f: Cleanup, s: seq<RuleCondition>)
    requires Idempotent(f)
    ensures CleanConditions(f, Conditions(Map(Plain, CleanConditions(f, Conditions(s))))) == CleanConditions(f, Conditions(s))
    ensures |Map(Plain, CleanConditions(f, Conditions(s)))| == |s|
  {
    var once := CleanConditions(f, Conditions(s));
    var twice := CleanConditions(f, Conditions(Map(Plain, once)));
    forall i | 0 <= i < |s| ensures twice[i] == once[i] {
      assert f.trim(f.trim(s[i].field)) == f.trim(s[i].field) && f.trim(f.trim(s[i].operator)) == f.trim(s[i].operator);
      assert f.trim(f.trim(s[i].value)) == f.trim(s[i].value);
    }
  }

  lemma BypassAgain(f: Cleanup, b: TemplateBypass, order: nat, id: int)
    requires Idempotent(f)
    ensures Same(f, BypassDraft(AsBypass(Item(f, BypassDraft(b), order, id))), BypassDraft(b))
  {
    ConditionsAgain(f, b.conditions);
    assert f.trim(f.trim(b.reason)) == f.trim(b.reason);
  }

  lemma RuleAgain(f: Cleanup, stage: Stage, r: TemplateRule, order: nat, id: int)
    requires Idempotent(f)
    ensures Same(f, RuleDraft(stage)(AsRule(Item(f, RuleDraft(stage)(r), order, id))), RuleDraft(stage)(r))
  {
    ConditionsAgain(f, r.conditions);
  }

  lemma TagAgain(f: Cleanup, tag: string, order: nat, id: int)
    requires Idempotent(f)
    ensures Same(f, TagDraft(AsTag(Item(f, TagDraft(tag), order, id))), TagDraft(tag))
  {
    assert f.trim(f.trim(tag)) == f.trim(tag);
  }

  lemma TargetAgain(f: Cleanup, t: TemplateTarget, order: nat, id: int)
    requires Idempotent(f)
    ensures Same(f, TargetDraft(AsTarget(Item(f, TargetDraft(t), order, id))), TargetDraft(t))
  {
    ConditionsAgain(f, t.conditions);
    assert f.trim(f.trim(t.target)) == f.trim(t.target);
  }

  // ---------------------------------------------------------------- lists of entries

  /** A list of entries whose items, wherever placed, go to one slot and are restored to entries that build the same. */
  ghost predicate Restores<T(!new)>(f: Cleanup, draft: T -> Draft, back: Exclusion -> T, slot: Exclusion -> nat, k: nat) {
    forall x, order, id :: slot(Item(f, draft(x), order, id)) == k && Same(f, draft(back(Item(f, draft(x), order, id))), draft(x))
  }

  lemma RestoresTags<T(!new)>(f: Cleanup, draft: T -> Draft, back: Exclusion -> T, slot: Exclusion -> nat, k: nat, entries: seq<T>)
    requires Restores(f, draft, back, slot, k)
    ensures Each(ItemOf(f), slot, Map(draft, entries), k)
  {
    var drafts := Map(draft, entries);
    forall i, order, id | 0 <= i < |drafts| ensures slot(ItemOf(f)(drafts[i], order, id)) == k {
      assert slot(Item(f, draft(entries[i]), order, id)) == k;
    }
  }

  lemma RestoresList<T(!new)>(f: Cleanup, draft: T -> Draft, back: Exclusion -> T, slot: Exclusion -> nat, k: nat, entries: seq<T>,
                              items: seq<Exclusion>, at: nat, ids: nat -> int)
    requires Restores(f, draft, back, slot, k) && |items| == |entries|
    requires forall i: nat :: i < |entries| ==> items[i] == Item(f, draft(entries[i]), at + i, ids(at + i))
    ensures AllSame(f, Map(draft, Map(back, items)), Map(draft, entries))
  {
    forall i: nat | i < |entries| ensures Same(f, draft(back(items[i])), draft(entries[i])) {
      assert Same(f, draft(back(Item(f, draft(entries[i]), at + i, ids(at + i)))), draft(entries[i]));
    }
  }

  lemma AddressRestores(f: Cleanup)
    requires Idempotent(f) && PlainNames(f)
    ensures Restores(f, LegacyBypass(System, Address, IpMatch), FirstValue, Slot, 0)
  {
    forall x, order, id
      ensures Slot(Item(f, LegacyBypass(System, Address, IpMatch)(x), order, id)) == 0
      ensures Same(f, LegacyBypass(System, Address, IpMatch)(FirstValue(Item(f, LegacyBypass(System, Address, IpMatch)(x), order, id))), LegacyBypass(System, Address, IpMatch)(x))
    {
      AddressSlot(f, x, order, id);
      BypassSame(f, System, Address, IpMatch, x);
    }
  }

  lemma PathRestores(f: Cleanup)
    requires Idempotent(f) && PlainNames(f)
    ensures Restores(f, LegacyBypass(System, Uri, BeginsWith), FirstValue, Slot, 1)
  {
    forall x, order, id
      ensures Slot(Item(f, LegacyBypass(System, Uri, BeginsWith)(x), order, id)) == 1
      ensures Same(f, LegacyBypass(System, Uri, BeginsWith)(FirstValue(Item(f, LegacyBypass(System, Uri, BeginsWith)(x), order, id))), LegacyBypass(System, Uri, BeginsWith)(x))
    {
      PathSlot(f, x, order, id);
      BypassSame(f, System, Uri, BeginsWith, x);
    }
  }

  lemma BypassRestores(f: Cleanup)
    requires Idempotent(f)
    ensures Restores(f, BypassDraft, AsBypass, Slot, 2)
  {
    forall x, order, id
      ensures Slot(Item(f, BypassDraft(x), order, id)) == 2 && Same(f, BypassDraft(AsBypass(Item(f, BypassDraft(x), order, id))), BypassDraft(x))
    {
      BypassSlot(f, x, order, id);
      BypassAgain(f, x, order, id);
    }
  }

  lemma RuleRestores(f: Cleanup, stage: Stage, k: nat)
    requires Idempotent(f) && k == if stage == BeforeCrs then 3 else 4
    ensures Restores(f, RuleDraft(stage), AsRule, Slot, k)
  {
    forall x, order, id
      ensures Slot(Item(f, RuleDraft(stage)(x), order, id)) == k && Same(f, RuleDraft(stage)(AsRule(Item(f, RuleDraft(stage)(x), order, id))), RuleDraft(stage)(x))
    {
      RuleSlot(f, stage, x, order, id);
      RuleAgain(f, stage, x, order, id);
    }
  }

  lemma TagRestores(f: Cleanup)
    requires Idempotent(f)
    ensures Restores(f, TagDraft, AsTag, Slot, 5)
  {
    forall x, order, id
      ensures Slot(Item(f, TagDraft(x), order, id)) == 5 && Same(f, TagDraft(AsTag(Item(f, TagDraft(x), order, id))), TagDraft(x))
    {
      TagSlot(f, x, order, id);
      TagAgain(f, x, order, id);
    }
  }

  lemma TargetRestores(f: Cleanup)
    requires Idempotent(f)
    ensures Restores(f, TargetDraft, AsTarget, Slot, 6)
  {
    forall x, order, id
      ensures Slot(Item(f, TargetDraft(x), order, id)) == 6 && Same(f, TargetDraft(AsTarget(Item(f, TargetDraft(x), order, id))), TargetDraft(x))
    {
      TargetSlot(f, x, order, id);
      TargetAgain(f, x, order, id);
    }
  }

  // ---------------------------------------------------------------- all seven lists

  function SystemParts(t: Template): seq<seq<Draft>> {
    [Map(LegacyBypass(System, Address, IpMatch), t.ips), Map(LegacyBypass(System, Uri, BeginsWith), t.paths), Map(BypassDraft, t.bypasses),
     Map(RuleDraft(BeforeCrs), t.before), Map(RuleDraft(AfterCrs), t.after), Map(TagDraft, t.tags), Map(TargetDraft, t.targets)]
  }

  lemma FlatSeven<T>(a: seq<T>, b: seq<T>, c: seq<T>, d: seq<T>, e: seq<T>, f: seq<T>, g: seq<T>)
    ensures Flat([a, b, c, d, e, f, g]) == a + b + c + d + e + f + g
  {
    FlatFour(a, b, c, d);
    assert [a, b, c, d, e][..4] == [a, b, c, d] && [a, b, c, d, e, f][..5] == [a, b, c, d, e] && [a, b, c, d, e, f, g][..6] == [a, b, c, d, e, f];
    assert Flat([a, b, c, d, e]) == a + b + c + d + e;
    assert Flat([a, b, c, d, e, f]) == a + b + c + d + e + f;
  }

  lemma SystemPartsFlat(t: Template)
    ensures Flat(SystemParts(t)) == SystemDrafts(t)
  {
    FlatSeven(Map(LegacyBypass(System, Address, IpMatch), t.ips), Map(LegacyBypass(System, Uri, BeginsWith), t.paths), Map(BypassDraft, t.bypasses),
              Map(RuleDraft(BeforeCrs), t.before), Map(RuleDraft(AfterCrs), t.after), Map(TagDraft, t.tags), Map(TargetDraft, t.targets));
  }

  lemma SevenTags<D(!new), X>(item: (D, nat, int) -> X, tag: X -> nat, p: seq<seq<D>>)
    requires |p| == 7 && Each(item, tag, p[0], 0) && Each(item, tag, p[1], 1) && Each(item, tag, p[2], 2) && Each(item, tag, p[3], 3)
    requires Each(item, tag, p[4], 4) && Each(item, tag, p[5], 5) && Each(item, tag, p[6], 6)
    ensures Tags(item, tag, p)
  {
  }

  /** Every list of a template restores its entries. */
  ghost predicate AllRestore(f: Cleanup, slot: Exclusion -> nat) {
    && Restores(f, LegacyBypass(System, Address, IpMatch), FirstValue, slot, 0) && Restores(f, LegacyBypass(System, Uri, BeginsWith), FirstValue, slot, 1)
    && Restores(f, BypassDraft, AsBypass, slot, 2) && Restores(f, RuleDraft(BeforeCrs), AsRule, slot, 3)
    && Restores(f, RuleDraft(AfterCrs), AsRule, slot, 4) && Restores(f, TagDraft, AsTag, slot, 5) && Restores(f, TargetDraft, AsTarget, slot, 6)
  }

  lemma SlotsRestore(f: Cleanup)
    requires Idempotent(f) && PlainNames(f)
    ensures AllRestore(f, Slot)
  {
    AddressRestores(f);
    PathRestores(f);
    BypassRestores(f);
    RuleRestores(f, BeforeCrs, 3);
    RuleRestores(f, AfterCrs, 4);
    TagRestores(f);
    TargetRestores(f);
  }

  lemma SystemTagged(f: Cleanup, slot: Exclusion -> nat, t: Template)
    requires AllRestore(f, slot)
    ensures Tags(ItemOf(f), slot, SystemParts(t))
  {
    RestoresTags(f, LegacyBypass(System, Address, IpMatch), FirstValue, slot, 0, t.ips);
    RestoresTags(f, LegacyBypass(System, Uri, BeginsWith), FirstValue, slot, 1, t.paths);
    RestoresTags(f, BypassDraft, AsBypass, slot, 2, t.bypasses);
    RestoresTags(f, RuleDraft(BeforeCrs), AsRule, slot, 3, t.before);
    RestoresTags(f, RuleDraft(AfterCrs), AsRule, slot, 4, t.after);
    RestoresTags(f, TagDraft, AsTag, slot, 5, t.tags);
    RestoresTags(f, TargetDraft, AsTarget, slot, 6, t.targets);
    SevenTags(ItemOf(f), slot, SystemParts(t));
  }

  lemma PartRestored<T(!new)>(f: Cleanup, draft: T -> Draft, back: Exclusion -> T, slot: Exclusion -> nat, k: nat, entries: seq<T>,
                              parts: seq<seq<Draft>>, x: seq<Exclusion>)
    requires Restores(f, draft, back, slot, k) && k < |parts| && parts[k] == Map(draft, entries)
    requires x == BuiltExclusions(f, Flat(parts)) && Tags(ItemOf(f), slot, parts)
    ensures AllSame(f, Map(draft, Map(back, Filter(Tagged(slot, k), x))), Map(draft, entries))
  {
    var at := PartOf(f, parts, slot, x, k);
    RestoresList(f, draft, back, slot, k, entries, Filter(Tagged(slot, k), x), at, IdsOf(Flat(parts)));
  }

  lemma {:induction false} PartsSame(f: Cleanup, p: seq<seq<Draft>>, q: seq<seq<Draft>>)
    requires |p| == |q| && forall k :: 0 <= k < |p| ==> AllSame(f, p[k], q[k])
    ensures AllSame(f, Flat(p), Flat(q))
    decreases |p|
  {
    if p != [] {
      PartsSame(f, p[..|p| - 1], q[..|q| - 1]);
      SameAppend(f, Flat(p[..|p| - 1]), Flat(q[..|q| - 1]), p[|p| - 1], q[|q| - 1]);
    }
  }

  /** Exclusions built from the restored template are those of the configuration. */
  lemma SystemExclusionsFixed(f: Cleanup, core: Scalars -> map<string, string>, join: seq<string> -> string, t: Template, c: Configuration, r: Template)
    requires AllRestore(f, Slot) && c.exclusions == BuiltExclusions(f, SystemDrafts(t)) && r == Restored(core, join, c, t)
    ensures BuiltExclusions(f, SystemDrafts(r)) == c.exclusions
  {
    var parts, x := SystemParts(t), c.exclusions;
    SystemPartsFlat(t);
    SystemPartsFlat(r);
    SystemTagged(f, Slot, t);
    PartRestored(f, LegacyBypass(System, Address, IpMatch), FirstValue, Slot, 0, t.ips, parts, x);
    PartRestored(f, LegacyBypass(System, Uri, BeginsWith), FirstValue, Slot, 1, t.paths, parts, x);
    PartRestored(f, BypassDraft, AsBypass, Slot, 2, t.bypasses, parts, x);
    PartRestored(f, RuleDraft(BeforeCrs), AsRule, Slot, 3, t.before, parts, x);
    PartRestored(f, RuleDraft(AfterCrs), AsRule, Slot, 4, t.after, parts, x);
    PartRestored(f, TagDraft, AsTag, Slot, 5, t.tags, parts, x);
    PartRestored(f, TargetDraft, AsTarget, Slot, 6, t.targets, parts, x);
    PartsSame(f, SystemParts(r), parts);
    BuiltSame(f, SystemDrafts(r), SystemDrafts(t));
  }

  // ---------------------------------------------------------------- setup values built again

  function KeyOf(x: Setup): string { x.key }

  /** A restored setup map holds the scalars' keys and the items. */
  lemma RestoredKeys(core: Scalars -> map<string, string>, keys: set<string>, c: Configuration, key: string)
    requires CoreFixed(core, keys) && key !in keys
    ensures Get(SetupMap(core, c), key) == LookUp(c.setup, key)
  {
    SetupMapIs(core, c, key);
    assert core(c.scalars).Keys == keys;
  }

  lemma {:induction false} DistinctKeys(names: seq<string>, key: string)
    requires forall i, j :: 0 <= i < j < |names| ==> names[i] != names[j]
    ensures multiset(names)[key] == if key in names then 1 else 0
  {
    if names != [] {
      var front := names[..|names| - 1];
      DistinctKeys(front, key);
      assert names == front + [names[|names| - 1]];
    }
  }

  lemma KeysOnce(s: seq<Setup>)
    requires UniqueKeys(s)
    ensures forall i, j :: 0 <= i < j < |Map(KeyOf, s)| ==> Map(KeyOf, s)[i] != Map(KeyOf, s)[j]
  {
  }

  /** The keys that are not decided by scalars are those of the items, once each. */
  lemma RestoredNames(core: Scalars -> map<string, string>, keys: set<string>, c: Configuration, names: seq<string>, keep: string -> bool)
    requires CoreFixed(core, keys) && UniqueKeys(c.setup) && Enumerates(names, SetupMap(core, c)) && forall key :: keep(key) == (key !in keys)
    requires forall i :: 0 <= i < |c.setup| ==> c.setup[i].key !in keys
    ensures multiset(Filter(keep, names)) == multiset(Map(KeyOf, c.setup))
  {
    var own := Map(KeyOf, c.setup);
    KeysOnce(c.setup);
    forall key ensures multiset(Filter(keep, names))[key] == multiset(own)[key] {
      FilterElements(keep, names, key);
      DistinctKeys(own, key);
      assert multiset(names)[key] == if key in SetupMap(core, c) then 1 else 0;
      if key in keys {
        assert key !in own;
      } else {
        RestoredKeys(core, keys, c, key);
        if LookUp(c.setup, key).Some? {
          var i := LookUpFound(c.setup, key);
          assert own[i] == key;
        }
        if key in own {
          var i :| 0 <= i < |own| && own[i] == key;
          LookUpItem(c.setup, i);
        }
      }
    }
  }

  function ItemIn(m: map<string, string>): string -> Setup { (key: string) => Setup(key, if key in m then m[key] else "", System) }

  /** Items made from the keys of the items are the items. */
  lemma ItemsAgain(core: Scalars -> map<string, string>, keys: set<string>, c: Configuration)
    requires CoreFixed(core, keys) && UniqueKeys(c.setup)
    requires forall i :: 0 <= i < |c.setup| ==> c.setup[i].key !in keys && c.setup[i].scope == System
    ensures Map(ItemIn(SetupMap(core, c)), Map(KeyOf, c.setup)) == c.setup
  {
    forall i | 0 <= i < |c.setup| ensures ItemIn(SetupMap(core, c))(c.setup[i].key) == c.setup[i] {
      RestoredKeys(core, keys, c, c.setup[i].key);
      LookUpItem(c.setup, i);
    }
  }

  /** Setup items are in normal form. */
  predicate NormalSetup(f: Cleanup, s: seq<Setup>) { Map(CleanSetup(f), s) == s && Sort(SetupOrder(f), s) == s }

  lemma SetupRestored(f: Cleanup, core: Scalars -> map<string, string>, keys: set<string>, c: Configuration, r: Template, names: seq<string>)
    requires KeyOrder(f) && CoreFixed(core, keys) && UniqueKeys(c.setup) && NormalSetup(f, c.setup) && r.setup == SetupMap(core, c)
    requires Enumerates(names, r.setup) && forall i :: 0 <= i < |names| ==> names[i] in r.setup
    requires forall i :: 0 <= i < |c.setup| ==> c.setup[i].key !in keys && c.setup[i].scope == System
    ensures BuiltSetup(f, keys, r, names) == c.setup
  {
    var keep := (key: string) => key !in keys;
    var item := ItemIn(r.setup);
    RestoredNames(core, keys, c, names, keep);
    MapElements(item, Filter(keep, names), Map(KeyOf, c.setup));
    ItemsAgain(core, keys, c);
    MapElements(CleanSetup(f), Map(item, Filter(keep, names)), c.setup);
    SameItems(keys, r, names, item, keep);
    SortedSetup(f, c.setup, Map(CleanSetup(f), SetupItems(keys, r, names)));
  }

  /** A key that scalars decide is never built, so an item under one is lost. */
  lemma CoreItemLost(f: Cleanup, core: Scalars -> map<string, string>, keys: set<string>, c: Configuration, r: Template, names: seq<string>, i: nat)
    requires CoreFixed(core, keys) && NormalSetup(f, c.setup) && r.setup == SetupMap(core, c)
    requires forall i :: 0 <= i < |names| ==> names[i] in r.setup
    requires i < |c.setup| && c.setup[i].key in keys
    ensures BuiltSetup(f, keys, r, names) != c.setup
  {
    var built := BuiltSetup(f, keys, r, names);
    if built == c.setup {
      var items := SetupItems(keys, r, names);
      var clean := Map(CleanSetup(f), items);
      SortKeeps(SetupOrder(f), clean);
      assert built[i] in clean;
      var j: nat :| j < |clean| && clean[j] == built[i];
      BuiltKey(f, core, keys, c, r, names, items, j);
    }
  }

  lemma BuiltKey(f: Cleanup, core: Scalars -> map<string, string>, keys: set<string>, c: Configuration, r: Template, names: seq<string>, items: seq<Setup>, j: nat)
    requires CoreFixed(core, keys) && NormalSetup(f, c.setup) && r.setup == SetupMap(core, c)
    requires forall i :: 0 <= i < |names| ==> names[i] in r.setup
    requires items == SetupItems(keys, r, names) && j < |items|
    ensures CleanSetup(f)(items[j]).key !in keys
  {
    var keep := (key: string) => key !in keys;
    SameItems(keys, r, names, ItemIn(r.setup), keep);
    FilterMember(keep, names, j);
    var key := Filter(keep, names)[j];
    assert items[j].key == key && key !in keys;
    RestoredKeys(core, keys, c, key);
    var i := LookUpFound(c.setup, key);
    assert Map(CleanSetup(f), c.setup)[i] == c.setup[i];
  }

  // ---------------------------------------------------------------- the fixpoint for templates

  lemma SystemLinesBack(f: Cleanup, g: RuleText, a: seq<string>, x: seq<CustomRule>)
    requires x == BuiltRules(f, Map(RuleOf(g, System), a)) && forall i :: 0 <= i < |a| ==> f.canonical(a[i]) == a[i]
    ensures Map(RuleLine, Filter(SystemEnabled, x)) == a
  {
    var rules := Map(RuleOf(g, System), a);
    forall i: nat | i < |x| ensures SystemEnabled(x[i]) && RuleLine(x[i]) == a[i] { BuiltRuleAt(f, rules, i); }
    FilterAll(SystemEnabled, x);
  }

  lemma FilledSelf(s: Scalars)
    ensures var c := CleanScalars(Filled(s, s)); CleanScalars(Filled(c, c)) == c
  {
  }

  /** A base configuration has nothing but the template's layer. */
  lemma BaseParts(f: Cleanup, g: RuleText, keys: set<string>, owner: string, t: Template, names: seq<string>, c: Configuration)
    requires forall i :: 0 <= i < |names| ==> names[i] in t.setup
    requires g.parse("") == Some([]) && Built(f, g, keys, (owner, ""), t, BaseSettings(t), names) == Some(c)
    ensures g.parse(t.customRules).Some?
    ensures c == Configuration("", owner, "", t.release, 1, CleanScalars(Filled(t.scalars, t.scalars)), "", BuiltSetup(f, keys, t, names),
                               BuiltExclusions(f, SystemDrafts(t)), BuiltRules(f, Map(RuleOf(g, System), g.parse(t.customRules).value)), [])
  {
    BuiltParts(f, g, keys, (owner, ""), t, BaseSettings(t), names, c);
    var none: seq<Draft> := [];
    assert EnterpriseDrafts(BaseSettings(t)) == none;
    assert SystemDrafts(t) + none == SystemDrafts(t);
    var a := Map(RuleOf(g, System), g.parse(t.customRules).value);
    assert Map(RuleOf(g, Enterprise), g.parse(BaseSettings(t).customRules).value) == [];
    assert a + [] == a;
  }

  /** Building from the restored template gives everything but the setup values back. */
  lemma RestoredParts(f: Cleanup, g: RuleText, core: Scalars -> map<string, string>, join: seq<string> -> string, keys: set<string>, owner: string,
                      t: Template, names: seq<string>, c: Configuration, r: Template, others: seq<string>)
    requires forall i :: 0 <= i < |names| ==> names[i] in t.setup
    requires forall i :: 0 <= i < |others| ==> others[i] in r.setup
    requires Idempotent(f) && PlainNames(f) && Reparses(f, g, join) && g.parse("") == Some([])
    requires Built(f, g, keys, (owner, ""), t, BaseSettings(t), names) == Some(c) && r == Restored(core, join, c, t)
    ensures Built(f, g, keys, (owner, ""), r, BaseSettings(r), others) == Some(c.(setup := BuiltSetup(f, keys, r, others)))
  {
    BaseParts(f, g, keys, owner, t, names, c);
    SlotsRestore(f);
    SystemExclusionsFixed(f, core, join, t, c, r);
    var a := g.parse(t.customRules).value;
    SystemLinesBack(f, g, a, c.customRules);
    assert g.parse(r.customRules) == Some(a);
    FilledSelf(t.scalars);
    var again := Built(f, g, keys, (owner, ""), r, BaseSettings(r), others);
    assert again.Some?;
    BaseParts(f, g, keys, owner, r, others, again.value);
  }

  /** Keys of setup items are the trimmed keys of the template, but for those that the scalars decide. */
  lemma {:induction false} SetupKeys(f: Cleanup, keys: set<string>, t: Template, names: seq<string>)
    requires Enumerates(names, t.setup) && forall i :: 0 <= i < |names| ==> names[i] in t.setup
    ensures (forall i :: 0 <= i < |BuiltSetup(f, keys, t, names)| ==> BuiltSetup(f, keys, t, names)[i].key !in keys)
        <==> forall key :: key in t.setup && key !in keys ==> f.trim(key) !in keys
  {
    var built := BuiltSetup(f, keys, t, names);
    if forall i :: 0 <= i < |built| ==> built[i].key !in keys {
      forall key | key in t.setup && key !in keys ensures f.trim(key) !in keys {
        var i := KeyBuilt(f, keys, t, names, key);
      }
    }
    if forall key :: key in t.setup && key !in keys ==> f.trim(key) !in keys {
      forall i: nat | i < |built| ensures built[i].key !in keys {
        var key := BuiltFrom(f, keys, t, names, i);
      }
    }
  }

  lemma {:induction false} KeyBuilt(f: Cleanup, keys: set<string>, t: Template, names: seq<string>, key: string) returns (i: nat)
    requires Enumerates(names, t.setup) && forall i :: 0 <= i < |names| ==> names[i] in t.setup
    requires key in t.setup && key !in keys
    ensures i < |BuiltSetup(f, keys, t, names)| && BuiltSetup(f, keys, t, names)[i].key == f.trim(key)
  {
    var keep := (key: string) => key !in keys;
    var kept := Filter(keep, names);
    var clean := Map(CleanSetup(f), SetupItems(keys, t, names));
    SameItems(keys, t, names, ItemIn(t.setup), keep);
    FilterElements(keep, names, key);
    assert key in multiset(names);
    assert key in multiset(kept);
    var j :| 0 <= j < |kept| && kept[j] == key;
    SortKeeps(SetupOrder(f), clean);
    assert clean[j] in BuiltSetup(f, keys, t, names);
    i :| 0 <= i < |BuiltSetup(f, keys, t, names)| && BuiltSetup(f, keys, t, names)[i] == clean[j];
  }

  lemma {:induction false} BuiltFrom(f: Cleanup, keys: set<string>, t: Template, names: seq<string>, i: nat) returns (key: string)
    requires forall i :: 0 <= i < |names| ==> names[i] in t.setup
    requires i < |BuiltSetup(f, keys, t, names)|
    ensures key in t.setup && key !in keys && BuiltSetup(f, keys, t, names)[i].key == f.trim(key)
  {
    var keep := (key: string) => key !in keys;
    var clean := Map(CleanSetup(f), SetupItems(keys, t, names));
    SameItems(keys, t, names, ItemIn(t.setup), keep);
    SortKeeps(SetupOrder(f), clean);
    assert BuiltSetup(f, keys, t, names)[i] in clean;
    var j: nat :| j < |clean| && clean[j] == BuiltSetup(f, keys, t, names)[i];
    FilterMember(keep, names, j);
    key := Filter(keep, names)[j];
  }

  /** Projecting a base configuration to its template and building it again, whatever order the setup maps are gone
      through in, gives the same configuration exactly when no key of the template becomes, by trimming, a key that
      the scalars decide. */
  lemma TemplateFixpoint(f: Cleanup, g: RuleText, core: Scalars -> map<string, string>, join: seq<string> -> string, keys: set<string>, owner: string,
                         t: Template, names: seq<string>, c: Configuration, r: Template, others: seq<string>)
    requires forall i :: 0 <= i < |names| ==> names[i] in t.setup
    requires forall i :: 0 <= i < |others| ==> others[i] in r.setup
    requires Idempotent(f) && KeyOrder(f) && PlainNames(f) && Reparses(f, g, join) && g.parse("") == Some([]) && CoreFixed(core, keys)
    requires Built(f, g, keys, (owner, ""), t, BaseSettings(t), names) == Some(c) && UniqueKeys(c.setup) && Enumerates(names, t.setup)
    requires r == Restored(core, join, c, t) && Enumerates(others, r.setup)
    ensures Built(f, g, keys, (owner, ""), r, BaseSettings(r), others) == Some(c)
        <==> forall key :: key in t.setup && key !in keys ==> f.trim(key) !in keys
  {
    SetupKeys(f, keys, t, names);
    RestoredParts(f, g, core, join, keys, owner, t, names, c, r, others);
    BaseParts(f, g, keys, owner, t, names, c);
    BuiltSetupNormal(f, SetupItems(keys, t, names));
    BuiltSetupScope(f, keys, t, names);
    if forall i :: 0 <= i < |c.setup| ==> c.setup[i].key !in keys {
      SetupRestored(f, core, keys, c, r, others);
    } else {
      var i: nat :| i < |c.setup| && c.setup[i].key in keys;
      CoreItemLost(f, core, keys, c, r, others, i);
    }
  }
}
