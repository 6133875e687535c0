/** Enterprise settings do not disturb the system layer, and generated rule ids are given out in order
    (internal/manager/policy_configuration.go, internal/manager/policy_delivery.go). */
module PolicyLayers {
  import opened Prelude
  import opened Sorting
  import opened Policy
  import opened PolicyComposition
  import opened PolicyValidation
  import opened PolicyBuild

  // ---------------------------------------------------------------- placed exclusions

  lemma {:induction false} PlacedAt(drafts: seq<Draft>, i: nat)
    requires i < |drafts|
    ensures Placed(drafts)[i] == Place(drafts[i], i, GeneratedMin + Needed(drafts[..i]))
  {
    var front, last := drafts[..|drafts| - 1], drafts[|drafts| - 1];
    PlacedSnoc(front, last);
    assert drafts == front + [last];
    if i < |front| {
      PlacedAt(front, i);
      assert front[..i] == drafts[..i];
    } else {
      assert drafts[..i] == front;
    }
  }

  lemma {:induction false} PlacedNumbered(drafts: seq<Draft>)
    ensures Numbered(Placed(drafts))
  {
    forall i | 0 <= i < |drafts| ensures Placed(drafts)[i].order == i { PlacedAt(drafts, i); }
  }

  /** The first drafts are placed without regard to those behind them. */
  lemma {:induction false} PlacedPrefix(a: seq<Draft>, b: seq<Draft>)
    ensures Placed(a + b)[..|a|] == Placed(a)
  {
    forall i | 0 <= i < |a| ensures Placed(a + b)[i] == Placed(a)[i] {
      PlacedAt(a + b, i);
      PlacedAt(a, i);
      assert (a + b)[..i] == a[..i];
    }
  }

  predicate DraftsIn(scope: Scope, drafts: seq<Draft>) { forall i :: 0 <= i < |drafts| ==> drafts[i].item.scope == scope }

  lemma DraftsInAppend(scope: Scope, a: seq<Draft>, b: seq<Draft>)
    requires DraftsIn(scope, a) && DraftsIn(scope, b)
    ensures DraftsIn(scope, a + b)
  {
  }

  lemma SystemDraftsIn(t: Template)
    ensures DraftsIn(System, SystemDrafts(t))
  {
    var a, b, c := Map(LegacyBypass(System, Address, IpMatch), t.ips), Map(LegacyBypass(System, Uri, BeginsWith), t.paths), Map(BypassDraft, t.bypasses);
    var d, e := Map(RuleDraft(BeforeCrs), t.before), Map(RuleDraft(AfterCrs), t.after);
    var tags, targets := Map(TagDraft, t.tags), Map(TargetDraft, t.targets);
    DraftsInAppend(System, a, b);
    DraftsInAppend(System, a + b, c);
    DraftsInAppend(System, a + b + c, d);
    DraftsInAppend(System, a + b + c + d, e);
    DraftsInAppend(System, a + b + c + d + e, tags);
    DraftsInAppend(System, a + b + c + d + e + tags, targets);
  }

  lemma EnterpriseDraftsIn(s: Settings)
    ensures DraftsIn(Enterprise, EnterpriseDrafts(s))
  {
    var a, b, c := Map(LegacyBypass(Enterprise, Address, IpMatch), s.ips), Map(LegacyBypass(Enterprise, Uri, BeginsWith), s.paths), Map(OwnDraft, s.exclusions);
    DraftsInAppend(Enterprise, a, b);
    DraftsInAppend(Enterprise, a + b, c);
  }

  lemma {:induction false} PlacedScopes(a: seq<Draft>, b: seq<Draft>, i: nat)
    requires DraftsIn(System, a) && DraftsIn(Enterprise, b) && i < |a| + |b|
    ensures Placed(a + b)[i].scope == if i < |a| then System else Enterprise
  {
    PlacedAt(a + b, i);
  }

  /** Keeping the system items of a placed list gives the placed system drafts. */
  lemma {:induction false} PlacedSystem(a: seq<Draft>, b: seq<Draft>)
    requires DraftsIn(System, a) && DraftsIn(Enterprise, b)
    ensures Filter(ExclusionIn(System), Placed(a + b)) == Placed(a)
  {
    var all := Placed(a + b);
    PlacedPrefix(a, b);
    forall i: nat | i < |a| + |b| ensures all[i].scope == (if i < |a| then System else Enterprise) { PlacedScopes(a, b, i); }
    FilterPrefix(ExclusionIn(System), all, |a|);
  }

  lemma {:induction false} FilterPrefix<T>(keep: T -> bool, s: seq<T>, n: nat)
    requires n <= |s| && (forall i :: 0 <= i < n ==> keep(s[i])) && (forall i :: n <= i < |s| ==> !keep(s[i]))
    ensures Filter(keep, s) == s[..n]
  {
    FilterAppend(keep, s[..n], s[n..]);
    FilterAll(keep, s[..n]);
    FilterNone(keep, s[n..]);
    assert s == s[..n] + s[n..];
  }

  // ---------------------------------------------------------------- parts of a built configuration

  /** The exclusions of a built configuration. */
  function BuiltExclusions(f: Cleanup, drafts: seq<Draft>): seq<Exclusion> {
    Map(BlankExclusion, Map(CleanExclusion(f), Placed(drafts)))
  }

  function BuiltRules(f: Cleanup, rules: seq<CustomRule>): seq<CustomRule> { Map(BlankRule, Map(CleanRule(f), NumberRules(rules))) }

  function BuiltSetup(f: Cleanup, keys: set<string>, t: Template, names: seq<string>): seq<Setup>
    requires forall i :: 0 <= i < |names| ==> names[i] in t.setup
  {
    Sort(SetupOrder(f), Map(CleanSetup(f), SetupItems(keys, t, names)))
  }

  /** Sorting by order moves nothing in a freshly built configuration. */
  lemma BuiltParts(f: Cleanup, g: RuleText, keys: set<string>, owner: (string, string), t: Template, s: Settings, names: seq<string>, c: Configuration)
    requires forall i :: 0 <= i < |names| ==> names[i] in t.setup
    requires Built(f, g, keys, owner, t, s, names) == Some(c)
    ensures c.release == t.release && c.namespace == 1 && c.scalars == CleanScalars(Filled(t.scalars, s.scalars)) && c.ipRules == []
    ensures c.systemPolicyId == owner.0 && c.revisionId == owner.1 && c.id == "" && c.digest == ""
    ensures c.setup == BuiltSetup(f, keys, t, names)
    ensures c.exclusions == BuiltExclusions(f, SystemDrafts(t) + EnterpriseDrafts(s))
    ensures g.parse(t.customRules).Some? && g.parse(s.customRules).Some?
    ensures c.customRules == BuiltRules(f, Map(RuleOf(g, System), g.parse(t.customRules).value) + Map(RuleOf(g, Enterprise), g.parse(s.customRules).value))
  {
    var drafts := SystemDrafts(t) + EnterpriseDrafts(s);
    PlacedNumbered(drafts);
    NumberedStay(f, Placed(drafts), Draft0(g, keys, owner, t, s, names).value.customRules);
  }

  // ---------------------------------------------------------------- the system layer

  lemma CleanKeepsScope(f: Cleanup)
    ensures forall x :: ExclusionIn(System)(CleanExclusion(f)(x)) == ExclusionIn(System)(x)
    ensures forall x :: ExclusionIn(System)(BlankExclusion(x)) == ExclusionIn(System)(x)
    ensures forall x :: RuleIn(System)(CleanRule(f)(x)) == RuleIn(System)(x)
    ensures forall x :: RuleIn(System)(BlankRule(x)) == RuleIn(System)(x)
  {
  }

  /** The system exclusions of a built configuration depend on the template alone. */
  lemma SystemExclusions(f: Cleanup, a: seq<Draft>, b: seq<Draft>)
    requires DraftsIn(System, a) && DraftsIn(Enterprise, b)
    ensures Filter(ExclusionIn(System), BuiltExclusions(f, a + b)) == BuiltExclusions(f, a)
  {
    CleanKeepsScope(f);
    FilterMap(BlankExclusion, ExclusionIn(System), Map(CleanExclusion(f), Placed(a + b)));
    FilterMap(CleanExclusion(f), ExclusionIn(System), Placed(a + b));
    PlacedSystem(a, b);
  }

  lemma SystemRules(f: Cleanup, a: seq<CustomRule>, b: seq<CustomRule>)
    requires (forall i :: 0 <= i < |a| ==> a[i].scope == System) && (forall i :: 0 <= i < |b| ==> b[i].scope == Enterprise)
    ensures Filter(RuleIn(System), BuiltRules(f, a + b)) == BuiltRules(f, a)
  {
    var all := NumberRules(a + b);
    CleanKeepsScope(f);
    FilterMap(BlankRule, RuleIn(System), Map(CleanRule(f), all));
    FilterMap(CleanRule(f), RuleIn(System), all);
    FilterPrefix(RuleIn(System), all, |a|);
    assert all[..|a|] == NumberRules(a);
  }

  // ---------------------------------------------------------------- setup items in any order

  function Without<T>(s: seq<T>, j: nat): seq<T>
    requires j < |s|
  {
    s[..j] + s[j + 1..]
  }

  lemma {:induction false} WithoutElements<T>(s: seq<T>, j: nat)
    requires j < |s|
    ensures multiset(s) == multiset(Without(s, j)) + multiset{s[j]}
  {
    assert s == s[..j] + [s[j]] + s[j + 1..];
  }

  lemma {:induction false} MapWithout<A, B>(f: A -> B, s: seq<A>, j: nat)
    requires j < |s|
    ensures Map(f, Without(s, j)) == Without(Map(f, s), j)
  {
  }

  lemma {:induction false} MapElements<A, B>(f: A -> B, a: seq<A>, b: seq<A>)
    requires multiset(a) == multiset(b)
    ensures multiset(Map(f, a)) == multiset(Map(f, b))
    decreases |a|
  {
    assert |a| == |multiset(a)| && |b| == |multiset(b)|;
    if a != [] {
      InMultiset(a, b, a[0]);
      var j: nat :| j < |b| && b[j] == a[0];
      WithoutElements(a, 0);
      WithoutElements(b, j);
      assert multiset(Without(a, 0)) == multiset(a) - multiset{a[0]};
      assert multiset(Without(b, j)) == multiset(b) - multiset{a[0]};
      MapElements(f, Without(a, 0), Without(b, j));
      MapWithout(f, a, 0);
      MapWithout(f, b, j);
      WithoutElements(Map(f, a), 0);
      WithoutElements(Map(f, b), j);
    }
  }

  lemma {:induction false} FilterElements<T>(keep: T -> bool, s: seq<T>, x: T)
    ensures multiset(Filter(keep, s))[x] == if keep(x) then multiset(s)[x] else 0
  {
    if s != [] {
      FilterElements(keep, s[..|s| - 1], x);
      assert s == s[..|s| - 1] + [s[|s| - 1]];
    }
  }

  /** Keys are compared by a total order. */
  ghost predicate KeyOrder(f: Cleanup) {
    TotalPreorder(f.keyOrder) && forall a, b :: f.keyOrder(a, b) && f.keyOrder(b, a) ==> a == b
  }

  lemma SetupOrderIsOrder(f: Cleanup)
    requires KeyOrder(f)
    ensures TotalPreorder(SetupOrder(f))
  {
    var le := SetupOrder(f);
    forall x, y ensures le(x, y) || le(y, x) { assert f.keyOrder(x.key, y.key) || f.keyOrder(y.key, x.key); }
    forall x, y, z | le(x, y) && le(y, z) ensures le(x, z) { assert f.keyOrder(x.key, y.key) && f.keyOrder(y.key, z.key); }
  }

  /** Sorting items with distinct keys gives the same list whatever order they came in. */
  lemma SortedSetup(f: Cleanup, a: seq<Setup>, b: seq<Setup>)
    requires KeyOrder(f) && multiset(a) == multiset(b) && UniqueKeys(Sort(SetupOrder(f), a))
    ensures Sort(SetupOrder(f), a) == Sort(SetupOrder(f), b)
  {
    var le := SetupOrder(f);
    var x, y := Sort(le, a), Sort(le, b);
    SetupOrderIsOrder(f);
    SortElements(le, a);
    SortElements(le, b);
    SortSorted(le, a);
    SortSorted(le, b);
    forall p, q | p in x && q in x && le(p, q) && le(q, p) ensures p == q {
      var i :| 0 <= i < |x| && x[i] == p;
      var j :| 0 <= j < |x| && x[j] == q;
      assert p.key == q.key;
    }
    SortedUnique(le, x, y);
  }

  /** The setup layer does not depend on the order in which the map was gone through. */
  lemma SameSetup(f: Cleanup, keys: set<string>, t: Template, names: seq<string>, others: seq<string>)
    requires KeyOrder(f) && Enumerates(names, t.setup) && Enumerates(others, t.setup)
    requires forall i :: 0 <= i < |names| ==> names[i] in t.setup
    requires forall i :: 0 <= i < |others| ==> others[i] in t.setup
    requires UniqueKeys(BuiltSetup(f, keys, t, names))
    ensures BuiltSetup(f, keys, t, names) == BuiltSetup(f, keys, t, others)
  {
    var keep := (key: string) => key !in keys;
    var item := (key: string) => Setup(key, if key in t.setup then t.setup[key] else "", System);
    var a, b := Filter(keep, names), Filter(keep, others);
    forall x ensures multiset(a)[x] == multiset(b)[x] {
      FilterElements(keep, names, x);
      FilterElements(keep, others, x);
    }
    MapElements(item, a, b);
    MapElements(CleanSetup(f), Map(item, a), Map(item, b));
    SameItems(keys, t, names, item, keep);
    SameItems(keys, t, others, item, keep);
    SortedSetup(f, Map(CleanSetup(f), SetupItems(keys, t, names)), Map(CleanSetup(f), SetupItems(keys, t, others)));
  }

  lemma SameItems(keys: set<string>, t: Template, names: seq<string>, item: string -> Setup, keep: string -> bool)
    requires forall i :: 0 <= i < |names| ==> names[i] in t.setup
    requires forall key :: item(key) == Setup(key, if key in t.setup then t.setup[key] else "", System)
    requires forall key :: keep(key) == (key !in keys)
    ensures SetupItems(keys, t, names) == Map(item, Filter(keep, names))
  {
    FilterSame((key: string) => key !in keys, keep, names);
  }

  lemma {:induction false} FilterSame<T(!new)>(keep: T -> bool, also: T -> bool, s: seq<T>)
    requires forall x :: keep(x) == also(x)
    ensures Filter(keep, s) == Filter(also, s)
  {
    if s != [] { FilterSame(keep, also, s[..|s| - 1]); }
  }

  // ---------------------------------------------------------------- non-interference

  /** Settings that add nothing to a template. */
  function BaseSettings(t: Template): Settings { Settings(Unset, None, t.scalars, [], [], [], "") }

  /** Inherited scalars are the base's. */
  lemma InheritedScalars(t: Template, s: Settings, r: Settings)
    requires Resolve(t, s) == Some(r) && s.source == Inherit
    ensures CleanScalars(Filled(t.scalars, r.scalars)) == CleanScalars(Filled(t.scalars, t.scalars))
  {
  }

  /** A configuration built from a template has the template's layer, in front of the rest. */
  lemma BuiltLayers(f: Cleanup, g: RuleText, keys: set<string>, owner: (string, string), t: Template, s: Settings, names: seq<string>, c: Configuration)
    requires forall i :: 0 <= i < |names| ==> names[i] in t.setup
    requires Built(f, g, keys, owner, t, s, names) == Some(c)
    ensures g.parse(t.customRules).Some?
    ensures Filter(ExclusionIn(System), c.exclusions) == BuiltExclusions(f, SystemDrafts(t))
    ensures Filter(RuleIn(System), c.customRules) == BuiltRules(f, Map(RuleOf(g, System), g.parse(t.customRules).value))
    ensures SystemFirst(c)
  {
    BuiltParts(f, g, keys, owner, t, s, names, c);
    SystemDraftsIn(t);
    EnterpriseDraftsIn(s);
    var a, b := Map(RuleOf(g, System), g.parse(t.customRules).value), Map(RuleOf(g, Enterprise), g.parse(s.customRules).value);
    ListLayers(f, SystemDrafts(t), EnterpriseDrafts(s), a, b, c.exclusions, c.customRules);
  }

  lemma ListLayers(f: Cleanup, system: seq<Draft>, own: seq<Draft>, a: seq<CustomRule>, b: seq<CustomRule>, exclusions: seq<Exclusion>, rules: seq<CustomRule>)
    requires DraftsIn(System, system) && DraftsIn(Enterprise, own)
    requires (forall i :: 0 <= i < |a| ==> a[i].scope == System) && (forall i :: 0 <= i < |b| ==> b[i].scope == Enterprise)
    requires exclusions == BuiltExclusions(f, system + own) && rules == BuiltRules(f, a + b)
    ensures Filter(ExclusionIn(System), exclusions) == BuiltExclusions(f, system) && Filter(RuleIn(System), rules) == BuiltRules(f, a)
    ensures forall i, j :: 0 <= i < j < |exclusions| && exclusions[j].scope == System ==> exclusions[i].scope == System
    ensures forall i, j :: 0 <= i < j < |rules| && rules[j].scope == System ==> rules[i].scope == System
  {
    SystemExclusions(f, system, own);
    SystemRules(f, a, b);
    ExclusionsFirst(f, system, own);
    RulesFirst(f, a, b);
  }

  lemma ExclusionsFirst(f: Cleanup, a: seq<Draft>, b: seq<Draft>)
    requires DraftsIn(System, a) && DraftsIn(Enterprise, b)
    ensures var x := BuiltExclusions(f, a + b);
            forall i, j :: 0 <= i < j < |x| && x[j].scope == System ==> x[i].scope == System
  {
    var x := BuiltExclusions(f, a + b);
    forall i: nat | i < |x| ensures x[i].scope == if i < |a| then System else Enterprise { PlacedScopes(a, b, i); }
  }

  lemma RulesFirst(f: Cleanup, a: seq<CustomRule>, b: seq<CustomRule>)
    requires (forall i :: 0 <= i < |a| ==> a[i].scope == System) && (forall i :: 0 <= i < |b| ==> b[i].scope == Enterprise)
    ensures var x := BuiltRules(f, a + b);
            forall i, j :: 0 <= i < j < |x| && x[j].scope == System ==> x[i].scope == System
  {
    var x := BuiltRules(f, a + b);
    forall i: nat | i < |x| ensures x[i].scope == if i < |a| then System else Enterprise { assert x[i].scope == (a + b)[i].scope; }
  }

  lemma BuiltSetupScope(f: Cleanup, keys: set<string>, t: Template, names: seq<string>)
    requires forall i :: 0 <= i < |names| ==> names[i] in t.setup
    ensures forall i :: 0 <= i < |BuiltSetup(f, keys, t, names)| ==> BuiltSetup(f, keys, t, names)[i].scope == System
  {
    var items := Map(CleanSetup(f), SetupItems(keys, t, names));
    SortKeeps(SetupOrder(f), items);
    forall i | 0 <= i < |BuiltSetup(f, keys, t, names)| ensures BuiltSetup(f, keys, t, names)[i].scope == System {
      assert BuiltSetup(f, keys, t, names)[i] in items;
      var j :| 0 <= j < |items| && items[j] == BuiltSetup(f, keys, t, names)[i];
    }
  }

  /** Whatever the settings, the configuration built from a template and settings composes with the base built
      from the same template, and the system items come first in it. */
  lemma SettingsDoNotInterfere(f: Cleanup, g: RuleText, keys: set<string>, owner: string, revision: string, t: Template, s: Settings, r: Settings,
                               names: seq<string>, others: seq<string>, base: Configuration, effective: Configuration)
    requires KeyOrder(f) && g.parse("") == Some([]) && Enumerates(names, t.setup) && Enumerates(others, t.setup)
    requires forall i :: 0 <= i < |names| ==> names[i] in t.setup
    requires forall i :: 0 <= i < |others| ==> others[i] in t.setup
    requires Resolve(t, s) == Some(r)
    requires Built(f, g, keys, (owner, ""), t, BaseSettings(t), names) == Some(base) && ValidSetup(base.setup)
    requires Built(f, g, keys, ("", revision), t, r, others) == Some(effective)
    ensures ValidComposition(base, effective, s.source)
    ensures SystemOnly(base) && SystemFirst(effective) && UniqueKeys(effective.setup)
    ensures forall i :: 0 <= i < |effective.setup| ==> effective.setup[i].scope == System
  {
    BuiltLayers(f, g, keys, (owner, ""), t, BaseSettings(t), names, base);
    BuiltLayers(f, g, keys, ("", revision), t, r, others, effective);
    BuiltParts(f, g, keys, (owner, ""), t, BaseSettings(t), names, base);
    BuiltParts(f, g, keys, ("", revision), t, r, others, effective);
    SameSetup(f, keys, t, names, others);
    BuiltSetupScope(f, keys, t, names);
    BaseIsSystem(f, g, t, base);
    if s.source == Inherit { InheritedScalars(t, s, r); }
  }

  lemma BaseIsSystem(f: Cleanup, g: RuleText, t: Template, base: Configuration)
    requires g.parse("") == Some([]) && g.parse(t.customRules).Some?
    requires base.exclusions == BuiltExclusions(f, SystemDrafts(t) + EnterpriseDrafts(BaseSettings(t)))
    requires base.customRules == BuiltRules(f, Map(RuleOf(g, System), g.parse(t.customRules).value) + Map(RuleOf(g, Enterprise), g.parse(BaseSettings(t).customRules).value))
    ensures forall i :: 0 <= i < |base.exclusions| ==> base.exclusions[i].scope == System
    ensures forall i :: 0 <= i < |base.customRules| ==> base.customRules[i].scope == System
  {
    SystemDraftsIn(t);
    EnterpriseDraftsIn(BaseSettings(t));
    assert EnterpriseDrafts(BaseSettings(t)) == [];
    forall i: nat | i < |base.exclusions| ensures base.exclusions[i].scope == System {
      PlacedScopes(SystemDrafts(t), EnterpriseDrafts(BaseSettings(t)), i);
    }
  }

  /** For a freshly built configuration, rendering base and override apart and applying both gives what rendering
      the whole configuration gives. */
  lemma BuiltSplitsAndComposes(core: Scalars -> map<string, string>, keys: set<string>, base: Configuration, effective: Configuration, source: ScalarSource)
    requires CoreFixed(core, keys) && ValidComposition(base, effective, source)
    requires SystemOnly(base) && SystemFirst(effective) && UniqueKeys(effective.setup)
    requires forall i :: 0 <= i < |effective.setup| ==> effective.setup[i].scope == System
    ensures Compose(InputOf(core, base), OverrideOf(core, effective, source)) == InputOf(core, effective)
  {
    SplitThenCompose(core, keys, base, effective, source);
    if source == Inherit {
      ListsCompose(core, base, effective, source);
      InheritedSetup(core, keys, base, effective);
    }
  }

  // ---------------------------------------------------------------- generated rule ids

  function BeforeCount(s: seq<Exclusion>): nat {
    if s == [] then 0 else BeforeCount(s[..|s| - 1]) + (if s[|s| - 1].stage == BeforeCrs then 1 else 0)
  }

  lemma DraftStage(d: Draft, order: nat, id: int, k: Checks, f: Cleanup, now: int)
    requires d.allocate ==> d.item.conditions != [] || d.item.stage == BeforeCrs
    requires d.item.conditions != [] && d.item.stage == BeforeCrs ==> d.allocate
    requires ValidExclusion(k, BlankExclusion(CleanExclusion(f)(Place(d, order, id))), now)
    ensures d.allocate <==> d.item.stage == BeforeCrs
  {
    var x := BlankExclusion(CleanExclusion(f)(Place(d, order, id)));
    assert |x.conditions| == |d.item.conditions|;
  }

  predicate Regular(drafts: seq<Draft>) {
    forall i :: 0 <= i < |drafts| ==>
      && (drafts[i].allocate ==> drafts[i].item.conditions != [] || drafts[i].item.stage == BeforeCrs)
      && (drafts[i].item.conditions != [] && drafts[i].item.stage == BeforeCrs ==> drafts[i].allocate)
  }

  lemma RegularAppend(a: seq<Draft>, b: seq<Draft>)
    requires Regular(a) && Regular(b)
    ensures Regular(a + b)
  {
  }

  lemma SystemRegular(t: Template)
    ensures Regular(SystemDrafts(t))
  {
    var a, b, c := Map(LegacyBypass(System, Address, IpMatch), t.ips), Map(LegacyBypass(System, Uri, BeginsWith), t.paths), Map(BypassDraft, t.bypasses);
    var d, e := Map(RuleDraft(BeforeCrs), t.before), Map(RuleDraft(AfterCrs), t.after);
    var tags, targets := Map(TagDraft, t.tags), Map(TargetDraft, t.targets);
    RegularAppend(a, b);
    RegularAppend(a + b, c);
    RegularAppend(a + b + c, d);
    RegularAppend(a + b + c + d, e);
    RegularAppend(a + b + c + d + e, tags);
    RegularAppend(a + b + c + d + e + tags, targets);
  }

  lemma EnterpriseRegular(s: Settings)
    ensures Regular(EnterpriseDrafts(s))
  {
    var a, b, c := Map(LegacyBypass(Enterprise, Address, IpMatch), s.ips), Map(LegacyBypass(Enterprise, Uri, BeginsWith), s.paths), Map(OwnDraft, s.exclusions);
    RegularAppend(a, b);
    RegularAppend(a + b, c);
  }

  /** Ids are given exactly to drafts that are loaded before the CRS. */
  predicate Matching(drafts: seq<Draft>) {
    forall i :: 0 <= i < |drafts| ==>
      (drafts[i].allocate <==> drafts[i].item.stage == BeforeCrs) && (drafts[i].item.stage == AfterCrs ==> drafts[i].item.generatedId == 0)
  }

  lemma {:induction false} MatchingWhenValid(f: Cleanup, k: Checks, drafts: seq<Draft>, x: seq<Exclusion>, now: int)
    requires Regular(drafts) && x == BuiltExclusions(f, drafts) && forall j :: 0 <= j < |x| ==> ValidExclusion(k, x[j], now)
    ensures Matching(drafts)
  {
    forall i | 0 <= i < |drafts|
      ensures (drafts[i].allocate <==> drafts[i].item.stage == BeforeCrs) && (drafts[i].item.stage == AfterCrs ==> drafts[i].item.generatedId == 0)
    {
      PlacedAt(drafts, i);
      assert ValidExclusion(k, x[i], now);
      DraftStage(drafts[i], i, GeneratedMin + Needed(drafts[..i]), k, f, now);
    }
  }

  lemma {:induction false} NeededIs(drafts: seq<Draft>, x: seq<Exclusion>, i: nat)
    requires Matching(drafts) && |x| == |drafts| && i <= |x| && forall j :: 0 <= j < |x| ==> x[j].stage == drafts[j].item.stage
    ensures Needed(drafts[..i]) == BeforeCount(x[..i])
  {
    if i > 0 {
      NeededIs(drafts, x, i - 1);
      assert drafts[..i][..i - 1] == drafts[..i - 1] && x[..i][..i - 1] == x[..i - 1];
    }
  }

  /** In a valid built list the reserved ids run 5000, 5001, … over the exclusions loaded before the CRS, and the
      others have none. */
  lemma {:induction false} IdsRunInOrder(f: Cleanup, drafts: seq<Draft>, x: seq<Exclusion>, i: nat)
    requires Matching(drafts) && x == BuiltExclusions(f, drafts) && i < |x|
    ensures x[i].generatedId == if x[i].stage == BeforeCrs then GeneratedMin + BeforeCount(x[..i]) else 0
  {
    forall j | 0 <= j < |x| ensures x[j].stage == drafts[j].item.stage { PlacedAt(drafts, j); }
    NeededIs(drafts, x, i);
    PlacedAt(drafts, i);
  }

  lemma {:induction false} CountGrows(s: seq<Exclusion>, i: nat, j: nat)
    requires i < j <= |s|
    ensures BeforeCount(s[..j]) >= BeforeCount(s[..i]) + (if s[i].stage == BeforeCrs then 1 else 0)
  {
    assert s[..j][..j - 1] == s[..j - 1];
    if i < j - 1 { CountGrows(s, i, j - 1); }
  }

  ghost predicate IdsInOrder(x: seq<Exclusion>) {
    && (forall i: nat :: i < |x| ==> x[i].generatedId == if x[i].stage == BeforeCrs then GeneratedMin + BeforeCount(x[..i]) else 0)
    && (forall i, j :: 0 <= i < j < |x| && x[i].stage == BeforeCrs && x[j].stage == BeforeCrs ==> x[i].generatedId < x[j].generatedId)
  }

  lemma MatchingIds(f: Cleanup, drafts: seq<Draft>, x: seq<Exclusion>)
    requires Matching(drafts) && x == BuiltExclusions(f, drafts)
    ensures IdsInOrder(x)
  {
    forall i: nat | i < |x| ensures x[i].generatedId == if x[i].stage == BeforeCrs then GeneratedMin + BeforeCount(x[..i]) else 0 {
      IdsRunInOrder(f, drafts, x, i);
    }
    forall i: nat, j: nat | i < j < |x| && x[i].stage == BeforeCrs && x[j].stage == BeforeCrs ensures x[i].generatedId < x[j].generatedId {
      CountGrows(x, i, j);
    }
  }

  /** Reserved ids of a valid built configuration run 5000, 5001, … over the exclusions loaded before the CRS, in list
      order, so that every system id is below every enterprise id; all other exclusions have none. */
  lemma BuiltIds(f: Cleanup, g: RuleText, k: Checks, keys: set<string>, owner: (string, string), t: Template, s: Settings,
                 names: seq<string>, c: Configuration, now: int)
    requires forall i :: 0 <= i < |names| ==> names[i] in t.setup
    requires Built(f, g, keys, owner, t, s, names) == Some(c)
    requires forall i :: 0 <= i < |c.exclusions| ==> ValidExclusion(k, c.exclusions[i], now)
    ensures IdsInOrder(c.exclusions) && SystemFirst(c)
  {
    var drafts := SystemDrafts(t) + EnterpriseDrafts(s);
    BuiltParts(f, g, keys, owner, t, s, names, c);
    BuiltLayers(f, g, keys, owner, t, s, names, c);
    SystemRegular(t);
    EnterpriseRegular(s);
    RegularAppend(SystemDrafts(t), EnterpriseDrafts(s));
    MatchingWhenValid(f, k, drafts, c.exclusions, now);
    MatchingIds(f, drafts, c.exclusions);
  }
}
