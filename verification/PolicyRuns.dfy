/** Runs of edits that start from a built configuration: layers and rule ids
    (internal/manager/policy_mutation.go, internal/manager/policy_operator_handlers.go). */
module PolicyRuns {
  import opened Prelude
  import opened Text
  import opened Sorting
  import opened Policy
  import opened PolicyComposition
  import opened PolicyValidation
  import opened PolicyBuild
  import opened PolicyLayers
  import opened PolicyLists
  import opened PolicyEdits
  import opened RuleIds

  // ---------------------------------------------------------------- a built configuration is kept

  /** Lines of accepted rule texts are in canonical form. */
  ghost predicate CanonicalLines(f: Cleanup, g: RuleText) {
    forall text, i :: g.parse(text).Some? && 0 <= i < |g.parse(text).value| ==> f.canonical(g.parse(text).value[i]) == g.parse(text).value[i]
  }

  lemma CleanRuleAgain(f: Cleanup, x: CustomRule)
    requires Idempotent(f) && f.canonical(x.text) == x.text
    ensures CleanRule(f)(CleanRule(f)(x)) == CleanRule(f)(x)
  {
    assert f.trim(f.trim(x.name)) == f.trim(x.name) && f.trim(f.trim(x.phase)) == f.trim(x.phase);
    assert f.trim(f.trim(x.severity)) == f.trim(x.severity);
  }

  lemma BuiltExclusionsClean(f: Cleanup, drafts: seq<Draft>)
    requires Idempotent(f)
    ensures forall i :: 0 <= i < |drafts| ==> CleanExclusion(f)(BuiltExclusions(f, drafts)[i]) == BuiltExclusions(f, drafts)[i]
    ensures InOrder(PlaceExclusion, BuiltExclusions(f, drafts))
  {
    var x := BuiltExclusions(f, drafts);
    PlacedNumbered(drafts);
    forall i | 0 <= i < |drafts| ensures CleanExclusion(f)(x[i]) == x[i] && PlaceExclusion(x[i], i) == x[i] {
      CleanAgain(f, Placed(drafts)[i]);
    }
  }

  lemma BuiltRulesClean(f: Cleanup, rules: seq<CustomRule>)
    requires Idempotent(f) && forall i :: 0 <= i < |rules| ==> f.canonical(rules[i].text) == rules[i].text
    ensures forall i :: 0 <= i < |rules| ==> CleanRule(f)(BuiltRules(f, rules)[i]) == BuiltRules(f, rules)[i]
    ensures InOrder(PlaceRule, BuiltRules(f, rules))
  {
    var x := BuiltRules(f, rules);
    forall i | 0 <= i < |rules| ensures CleanRule(f)(x[i]) == x[i] && PlaceRule(x[i], i) == x[i] {
      CleanRuleAgain(f, NumberRules(rules)[i]);
    }
  }

  lemma BuiltSetupNormal(f: Cleanup, items: seq<Setup>)
    requires Idempotent(f) && KeyOrder(f)
    ensures var s := Sort(SetupOrder(f), Map(CleanSetup(f), items)); Map(CleanSetup(f), s) == s && Sort(SetupOrder(f), s) == s
  {
    var clean := Map(CleanSetup(f), items);
    var s := Sort(SetupOrder(f), clean);
    SortKeeps(SetupOrder(f), clean);
    forall i | 0 <= i < |s| ensures CleanSetup(f)(s[i]) == s[i] {
      assert s[i] in clean;
      var j :| 0 <= j < |clean| && clean[j] == s[i];
      assert f.trim(f.trim(items[j].key)) == f.trim(items[j].key) && f.squash(f.squash(items[j].value)) == f.squash(items[j].value);
    }
    assert Map(CleanSetup(f), s) == s;
    SetupOrderIsOrder(f);
    SortSorted(SetupOrder(f), clean);
    SortOfSorted(SetupOrder(f), s);
  }

  lemma MapBlankTwice(s: seq<Exclusion>, r: seq<CustomRule>)
    ensures Map(BlankExclusion, Map(BlankExclusion, s)) == Map(BlankExclusion, s)
    ensures Map(BlankRule, Map(BlankRule, r)) == Map(BlankRule, r)
  {
  }

  /** The lists of a built configuration against the template's layer. */
  lemma BuiltListsKept(f: Cleanup, system: seq<Draft>, own: seq<Draft>, a: seq<CustomRule>, b: seq<CustomRule>)
    requires Idempotent(f) && DraftsIn(System, system) && DraftsIn(Enterprise, own)
    requires (forall i :: 0 <= i < |a| ==> a[i].scope == System) && (forall i :: 0 <= i < |b| ==> b[i].scope == Enterprise)
    requires (forall i :: 0 <= i < |a| ==> f.canonical(a[i].text) == a[i].text) && (forall i :: 0 <= i < |b| ==> f.canonical(b[i].text) == b[i].text)
    ensures ExclusionsKept(f, BuiltExclusions(f, system), BuiltExclusions(f, system + own))
    ensures RulesKept(f, BuiltRules(f, a), BuiltRules(f, a + b))
    ensures forall i :: 0 <= i < |system| ==> CleanExclusion(f)(BuiltExclusions(f, system)[i]) == BuiltExclusions(f, system)[i]
    ensures forall i :: 0 <= i < |a| ==> CleanRule(f)(BuiltRules(f, a)[i]) == BuiltRules(f, a)[i]
  {
    ListLayers(f, system, own, a, b, BuiltExclusions(f, system + own), BuiltRules(f, a + b));
    BuiltExclusionsClean(f, system + own);
    BuiltExclusionsClean(f, system);
    BuiltRulesClean(f, a + b);
    BuiltRulesClean(f, a);
    MapBlankTwice(Map(CleanExclusion(f), Placed(system)), Map(CleanRule(f), NumberRules(a)));
  }

  /** The layer of a base that was built from a template. */
  lemma BaseLayer(f: Cleanup, g: RuleText, keys: set<string>, owner: string, t: Template, names: seq<string>, base: Configuration)
    requires forall i :: 0 <= i < |names| ==> names[i] in t.setup
    requires g.parse("") == Some([]) && Built(f, g, keys, (owner, ""), t, BaseSettings(t), names) == Some(base)
    ensures g.parse(t.customRules).Some?
    ensures SystemLayerOf(base) == SystemLayer(Filter(SetupIn(System), base.setup), BuiltExclusions(f, SystemDrafts(t)),
                                               BuiltRules(f, Map(RuleOf(g, System), g.parse(t.customRules).value)), [])
  {
    BuiltParts(f, g, keys, (owner, ""), t, BaseSettings(t), names, base);
    BuiltLayers(f, g, keys, (owner, ""), t, BaseSettings(t), names, base);
    var a := Map(RuleOf(g, System), g.parse(t.customRules).value);
    MapBlankTwice(Map(CleanExclusion(f), Placed(SystemDrafts(t))), Map(CleanRule(f), NumberRules(a)));
  }

  /** The settings of a built configuration are in normal form. */
  lemma BuiltIsNormal(f: Cleanup, g: RuleText, keys: set<string>, owner: (string, string), t: Template, s: Settings, names: seq<string>, c: Configuration)
    requires forall i :: 0 <= i < |names| ==> names[i] in t.setup
    requires Idempotent(f) && KeyOrder(f) && Built(f, g, keys, owner, t, s, names) == Some(c)
    ensures c.ipRules == [] && c.namespace != 0 && CleanScalars(c.scalars) == c.scalars
    ensures Sort(SetupOrder(f), Map(CleanSetup(f), c.setup)) == c.setup
  {
    BuiltParts(f, g, keys, owner, t, s, names, c);
    BuiltSetupNormal(f, SetupItems(keys, t, names));
  }

  lemma LinesCanonical(f: Cleanup, g: RuleText, scope: Scope, text: string)
    requires CanonicalLines(f, g) && g.parse(text).Some?
    ensures var a := Map(RuleOf(g, scope), g.parse(text).value);
            forall i :: 0 <= i < |a| ==> f.canonical(a[i].text) == a[i].text && a[i].scope == scope
  {
  }

  /** The lists of a built configuration have the template's layer in front. */
  lemma BuiltHasLayer(f: Cleanup, g: RuleText, keys: set<string>, owner: (string, string), t: Template, s: Settings, names: seq<string>, c: Configuration)
    requires forall i :: 0 <= i < |names| ==> names[i] in t.setup
    requires Idempotent(f) && CanonicalLines(f, g) && Built(f, g, keys, owner, t, s, names) == Some(c)
    ensures g.parse(t.customRules).Some?
    ensures var x, r := BuiltExclusions(f, SystemDrafts(t)), BuiltRules(f, Map(RuleOf(g, System), g.parse(t.customRules).value));
            && ExclusionsKept(f, x, c.exclusions) && RulesKept(f, r, c.customRules)
            && (forall i :: 0 <= i < |x| ==> CleanExclusion(f)(x[i]) == x[i]) && (forall i :: 0 <= i < |r| ==> CleanRule(f)(r[i]) == r[i])
  {
    BuiltParts(f, g, keys, owner, t, s, names, c);
    SystemDraftsIn(t);
    EnterpriseDraftsIn(s);
    LinesCanonical(f, g, System, t.customRules);
    LinesCanonical(f, g, Enterprise, s.customRules);
    BuiltListsKept(f, SystemDrafts(t), EnterpriseDrafts(s), Map(RuleOf(g, System), g.parse(t.customRules).value), Map(RuleOf(g, Enterprise), g.parse(s.customRules).value));
  }

  /** A configuration built from a template and settings is one that edits keep. */
  lemma BuiltIsKept(f: Cleanup, g: RuleText, keys: set<string>, owner: string, revision: string, t: Template, s: Settings, r: Settings,
                    names: seq<string>, others: seq<string>, base: Configuration, effective: Configuration)
    requires Idempotent(f) && KeyOrder(f) && CanonicalLines(f, g) && g.parse("") == Some([]) && Enumerates(names, t.setup) && Enumerates(others, t.setup)
    requires forall i :: 0 <= i < |names| ==> names[i] in t.setup
    requires forall i :: 0 <= i < |others| ==> others[i] in t.setup
    requires Resolve(t, s) == Some(r)
    requires Built(f, g, keys, (owner, ""), t, BaseSettings(t), names) == Some(base) && ValidSetup(base.setup)
    requires Built(f, g, keys, ("", revision), t, r, others) == Some(effective)
    ensures Kept(f, base, s.source, effective)
  {
    SettingsDoNotInterfere(f, g, keys, owner, revision, t, s, r, names, others, base, effective);
    BaseLayer(f, g, keys, owner, t, names, base);
    BuiltIsNormal(f, g, keys, ("", revision), t, r, others, effective);
    BuiltHasLayer(f, g, keys, ("", revision), t, r, others, effective);
    KeptWhen(f, base, s.source, effective, SystemLayerOf(base));
  }

  lemma KeptWhen(f: Cleanup, base: Configuration, source: ScalarSource, c: Configuration, layer: SystemLayer)
    requires layer == SystemLayerOf(base) && CleanLayer(f, layer) && ValidComposition(base, c, source)
    requires Sort(SetupOrder(f), Map(CleanSetup(f), c.setup)) == c.setup && CleanScalars(c.scalars) == c.scalars && c.namespace != 0
    requires ExclusionsKept(f, layer.exclusions, c.exclusions) && RulesKept(f, layer.rules, c.customRules) && c.ipRules == []
    ensures Kept(f, base, source, c)
  {
  }

  lemma {:induction false} RunKeepsSetup(f: Cleanup, k: Checks, base: Configuration, source: ScalarSource, find: IdFinder,
                                         c: Configuration, requests: seq<Request>)
    requires Kept(f, base, source, c) && LoadsCurrent(f, k, find, c, requests)
    ensures Run(f, k, find, c, requests).setup == c.setup
  {
    if requests != [] {
      var front, last := requests[..|requests| - 1], requests[|requests| - 1];
      LoadsFront(f, k, find, c, requests);
      RunKeepsSetup(f, k, base, source, find, c, front);
      RunKeeps(f, k, base, source, find, c, front);
      NextKeepsSetup(f, k, base, source, find, Run(f, k, find, c, front), last);
    }
  }

  lemma NextKeepsSetup(f: Cleanup, k: Checks, base: Configuration, source: ScalarSource, find: IdFinder, c: Configuration, r: Request)
    requires Kept(f, base, source, c) && BlankIds(r.loaded) == BlankIds(c)
    ensures Next(f, k, find, c, r).setup == c.setup
  {
    LoadedKeeps(f, base, source, c, r.loaded);
    match Edited(find, r.loaded, r.edit, r.now)
    case None =>
    case Some(e) => EditKeepsIps(r.loaded, find, r.edit, r.now);
  }

  /** Whatever edits follow, a kept configuration passes the composition check against its base, and rendering base
      and override apart stays the same as rendering the whole. */
  lemma SystemLayerIsImmutable(f: Cleanup, k: Checks, core: Scalars -> map<string, string>, keys: set<string>,
                               find: IdFinder, base: Configuration, source: ScalarSource,
                               effective: Configuration, requests: seq<Request>, now: Configuration)
    requires CoreFixed(core, keys) && SystemOnly(base) && Kept(f, base, source, effective) && LoadsCurrent(f, k, find, effective, requests)
    requires UniqueKeys(effective.setup) && forall i :: 0 <= i < |effective.setup| ==> effective.setup[i].scope == System
    requires now == Run(f, k, find, effective, requests)
    ensures ValidComposition(base, now, source)
    ensures Compose(InputOf(core, base), OverrideOf(core, now, source)) == InputOf(core, now)
  {
    EditsKeepTheSystemLayer(f, k, base, source, find, effective, requests);
    RunKeepsSetup(f, k, base, source, find, effective, requests);
    BuiltSplitsAndComposes(core, keys, base, now, source);
  }

  // ---------------------------------------------------------------- rule ids under edits

  lemma InsertId(a: seq<int>, b: seq<int>, id: int)
    requires NoDuplicates(a + b) && id !in a && id !in b
    ensures NoDuplicates(a + [id] + b)
  {
    var old_, all := a + b, a + [id] + b;
    forall i, j | 0 <= i < j < |all| ensures all[i] != all[j] {
      var x := if i < |a| then i else i - 1;
      var y := if j < |a| then j else j - 1;
      assert i != |a| ==> all[i] == old_[x];
      assert j != |a| ==> all[j] == old_[y];
      if i != |a| && j != |a| {
        assert old_[x] != old_[y];
      }
    }
  }

  predicate RulesAbove(s: seq<CustomRule>) { forall i :: 0 <= i < |s| ==> s[i].ruleId > GeneratedMax }

  lemma {:induction false} ReservedIn(s: seq<Exclusion>, id: int)
    requires id in Reserved(s)
    ensures id != 0 && exists i :: 0 <= i < |s| && s[i].generatedId == id
  {
    var ids := Map(ExclusionId, s);
    var keep := (id: int) => id != 0;
    var j :| 0 <= j < |Reserved(s)| && Reserved(s)[j] == id;
    FilterSame((id: int) => id != 0, keep, ids);
    FilterMember(keep, ids, j);
    var i :| 0 <= i < |ids| && ids[i] == id;
    assert s[i].generatedId == id;
  }

  lemma FreeIsUnused(c: Configuration, id: int)
    requires LeastFree(UsedIds(c), GeneratedMin, GeneratedMax) == Some(id) && RulesAbove(c.customRules)
    ensures Generated(id) && id !in Reserved(c.exclusions) && id !in Map(IpId, c.ipRules) && id !in Map(RuleId, c.customRules)
  {
    LeastFreeIs(UsedIds(c), GeneratedMin, GeneratedMax);
    if id in Reserved(c.exclusions) {
      ReservedIn(c.exclusions, id);
    }
  }

  lemma {:induction false} ReservedSnoc(s: seq<Exclusion>, x: Exclusion)
    ensures Reserved(s + [x]) == Reserved(s) + (if x.generatedId != 0 then [x.generatedId] else [])
  {
    var all := Map(ExclusionId, s + [x]);
    assert all[..|s|] == Map(ExclusionId, s) && all[|all| - 1] == x.generatedId;
  }

  /** A generated id from the least-free allocator keeps all ids distinct and in their ranges. */
  lemma AddExceptionKeepsIds(c: Configuration, x: Exclusion, id: int)
    requires ValidIds(c) && RulesAbove(c.customRules)
    requires id == 0 || LeastFree(UsedIds(c), GeneratedMin, GeneratedMax) == Some(id)
    ensures ValidIds(WithExclusion(c, x, id))
  {
    var e := WithExclusion(c, x, id);
    ReservedSnoc(c.exclusions, PlaceExclusion(x.(scope := Enterprise, generatedId := id), |c.exclusions|));
    var a, b, d := Reserved(c.exclusions), Map(IpId, c.ipRules), Map(RuleId, c.customRules);
    if id == 0 {
      assert a + [] == a;
    } else {
      FreeIsUnused(c, id);
      assert a + b + d == a + (b + d);
      InsertId(a, b + d, id);
      assert a + [id] + (b + d) == a + [id] + b + d;
    }
  }

  lemma AddIpKeepsIds(c: Configuration, x: IpRule, id: int)
    requires ValidIds(c) && RulesAbove(c.customRules) && LeastFree(UsedIds(c), GeneratedMin, GeneratedMax) == Some(id)
    ensures ValidIds(WithIp(c, x, id))
  {
    var a, b, d := Reserved(c.exclusions), Map(IpId, c.ipRules), Map(RuleId, c.customRules);
    FreeIsUnused(c, id);
    InsertId(a + b, d, id);
    assert Map(IpId, WithIp(c, x, id).ipRules) == b + [id];
    assert a + (b + [id]) + d == a + b + [id] + d;
  }

  /** A rule under an enterprise id keeps all ids distinct exactly when no rule has the id. */
  lemma AddRuleKeepsIds(c: Configuration, x: CustomRule, text: string, id: int)
    requires ValidIds(c) && InNamespace(Enterprise, id)
    ensures ValidIds(WithRule(c, x, text, id)) <==> id !in Map(RuleId, c.customRules)
  {
    var a, b, d := Reserved(c.exclusions), Map(IpId, c.ipRules), Map(RuleId, c.customRules);
    assert Map(RuleId, WithRule(c, x, text, id).customRules) == d + [id];
    assert a + b + (d + [id]) == a + b + d + [id];
    NoDuplicatesSnoc(a + b + d, id);
    assert id !in a + b;
  }

  predicate Apart(a: seq<int>, b: seq<int>) { forall i, j :: 0 <= i < |a| && 0 <= j < |b| ==> a[i] != b[j] }

  lemma NoDuplicatesConcat(a: seq<int>, b: seq<int>)
    ensures NoDuplicates(a + b) <==> NoDuplicates(a) && NoDuplicates(b) && Apart(a, b)
  {
    var all := a + b;
    if NoDuplicates(all) {
      forall i, j | 0 <= i < j < |a| ensures a[i] != a[j] { assert all[i] != all[j]; }
      forall i, j | 0 <= i < j < |b| ensures b[i] != b[j] { assert all[|a| + i] != all[|a| + j]; }
      forall i, j | 0 <= i < |a| && 0 <= j < |b| ensures a[i] != b[j] { assert all[i] != all[|a| + j]; }
    }
  }

  /** Ids that are left after some were dropped. */
  predicate Fewer(a: seq<int>, b: seq<int>) { (NoDuplicates(b) ==> NoDuplicates(a)) && forall i :: 0 <= i < |a| ==> a[i] in b }

  lemma FewerApart(a: seq<int>, b: seq<int>, c: seq<int>)
    requires Fewer(a, b)
    ensures Apart(b, c) ==> Apart(a, c)
    ensures Apart(c, b) ==> Apart(c, a)
  {
  }

  /** Dropping ids from any of three lists leaves the rest distinct. */
  lemma FewerIds(a: seq<int>, b: seq<int>, c: seq<int>, a1: seq<int>, b1: seq<int>, c1: seq<int>)
    requires NoDuplicates(a + b + c) && Fewer(a1, a) && Fewer(b1, b) && Fewer(c1, c)
    ensures NoDuplicates(a1 + b1 + c1)
  {
    NoDuplicatesConcat(a + b, c);
    NoDuplicatesConcat(a, b);
    ApartConcat(a, b, c);
    FewerApart(a1, a, b);
    FewerApart(b1, b, a1);
    FewerApart(a1, a, c);
    FewerApart(b1, b, c);
    FewerApart(c1, c, a1);
    FewerApart(c1, c, b1);
    ApartConcat(a1, b1, c1);
    NoDuplicatesConcat(a1, b1);
    NoDuplicatesConcat(a1 + b1, c1);
  }

  lemma ApartConcat(a: seq<int>, b: seq<int>, c: seq<int>)
    ensures Apart(a + b, c) <==> Apart(a, c) && Apart(b, c)
  {
    if Apart(a + b, c) {
      forall i, j | 0 <= i < |a| && 0 <= j < |c| ensures a[i] != c[j] { assert (a + b)[i] == a[i]; }
      forall i, j | 0 <= i < |b| && 0 <= j < |c| ensures b[i] != c[j] { assert (a + b)[|a| + i] == b[i]; }
    }
  }

  lemma FewerSelf(a: seq<int>)
    ensures Fewer(a, a)
  {
  }

  lemma {:induction false} FilterIds<T>(id: T -> int, keep: T -> bool, s: seq<T>)
    ensures Fewer(Map(id, Filter(keep, s)), Map(id, s))
  {
    if s != [] {
      var front, last := s[..|s| - 1], s[|s| - 1];
      var few, all := Map(id, Filter(keep, front)), Map(id, front);
      FilterIds(id, keep, front);
      assert s == front + [last] && Map(id, s) == all + [id(last)];
      FewerSnoc(few, all, id(last));
      assert keep(last) ==> Map(id, Filter(keep, s)) == few + [id(last)];
    }
  }

  lemma FewerSnoc(few: seq<int>, all: seq<int>, id: int)
    requires Fewer(few, all)
    ensures Fewer(few, all + [id]) && Fewer(few + [id], all + [id])
  {
    NoDuplicatesSnoc(few, id);
    NoDuplicatesSnoc(all, id);
  }

  lemma {:induction false} FilterReserved(keep: Exclusion -> bool, s: seq<Exclusion>)
    ensures Fewer(Reserved(Filter(keep, s)), Reserved(s))
  {
    if s != [] {
      var front, last := s[..|s| - 1], s[|s| - 1];
      FilterReserved(keep, front);
      assert s == front + [last];
      ReservedSnoc(front, last);
      ReservedSnoc(Filter(keep, front), last);
      FewerSnoc(Reserved(Filter(keep, front)), Reserved(front), last.generatedId);
      assert Reserved(front) + [] == Reserved(front) && Reserved(Filter(keep, front)) + [] == Reserved(Filter(keep, front));
    } else {
      FewerSelf(Reserved(s));
    }
  }

  lemma RenumberIds(x: seq<Exclusion>, y: seq<IpRule>, z: seq<CustomRule>)
    ensures Reserved(Renumber(PlaceExclusion, x)) == Reserved(x)
    ensures Map(IpId, Renumber(PlaceIp, y)) == Map(IpId, y) && Map(RuleId, Renumber(PlaceRule, z)) == Map(RuleId, z)
  {
    assert Map(ExclusionId, Renumber(PlaceExclusion, x)) == Map(ExclusionId, x);
  }

  /** A configuration with fewer ids in each list. */
  lemma FewerValid(c: Configuration, e: Configuration)
    requires ValidIds(c) && Fewer(Reserved(e.exclusions), Reserved(c.exclusions))
    requires Fewer(Map(IpId, e.ipRules), Map(IpId, c.ipRules)) && Fewer(Map(RuleId, e.customRules), Map(RuleId, c.customRules))
    ensures ValidIds(e)
  {
    FewerIds(Reserved(c.exclusions), Map(IpId, c.ipRules), Map(RuleId, c.customRules),
             Reserved(e.exclusions), Map(IpId, e.ipRules), Map(RuleId, e.customRules));
    forall i | 0 <= i < |e.ipRules| ensures Generated(e.ipRules[i].generatedId) {
      assert Map(IpId, e.ipRules)[i] in Map(IpId, c.ipRules);
    }
  }

  lemma RemovalKeepsIds(find: IdFinder, c: Configuration, edit: Edit, now: int, e: Configuration)
    requires ValidIds(c) && Edited(find, c, edit, now) == Some(e)
    requires edit.RemoveException? || edit.ExpireExceptions? || edit.RemoveIp? || edit.ExpireIps? || edit.RemoveRule?
    ensures ValidIds(e)
  {
    FewerSelf(Reserved(c.exclusions));
    FewerSelf(Map(IpId, c.ipRules));
    FewerSelf(Map(RuleId, c.customRules));
    match edit
    case RemoveException(id) =>
      FilterReserved(KeepException(id), c.exclusions);
      RenumberIds(Filter(KeepException(id), c.exclusions), [], []);
      FewerValid(c, e);
    case ExpireExceptions =>
      FilterReserved(KeepUnexpired(now), c.exclusions);
      RenumberIds(Filter(KeepUnexpired(now), c.exclusions), [], []);
      FewerValid(c, e);
    case RemoveIp(id) =>
      FilterIds(IpId, KeepIp(id), c.ipRules);
      RenumberIds([], Filter(KeepIp(id), c.ipRules), []);
      FewerValid(c, e);
    case ExpireIps =>
      FilterIds(IpId, KeepActive(now), c.ipRules);
      RenumberIds([], Filter(KeepActive(now), c.ipRules), []);
      FewerValid(c, e);
    case RemoveRule(id) =>
      FilterIds(RuleId, KeepRule(id), c.customRules);
      RenumberIds([], [], Filter(KeepRule(id), c.customRules));
      FewerValid(c, e);
  }

  // ---------------------------------------------------------------- rule ids over whole runs

  /** A rule is in the namespace of its scope, or in a preserved legacy range. */
  predicate RangeKept(x: CustomRule) { if x.legacyRange then LegacyId(x.ruleId) else InNamespace(x.scope, x.ruleId) }

  predicate RangesKept(s: seq<CustomRule>) { forall i :: 0 <= i < |s| ==> RangeKept(s[i]) }

  /** The text of each rule shows its id first. */
  predicate IdsShown(find: IdFinder, s: seq<CustomRule>) { forall i :: 0 <= i < |s| ==> find.first(s[i].text) == Some(s[i].ruleId) }

  /** All ids are distinct and in their ranges, and the rule texts show them. */
  ghost predicate IdsInPlace(find: IdFinder, c: Configuration) {
    ValidIds(c) && RangesKept(c.customRules) && IdsShown(find, c.customRules)
  }

  /** The first id of each text is among all ids of the joined texts. */
  ghost predicate Finds(find: IdFinder) {
    forall texts: seq<string>, i :: 0 <= i < |texts| && find.first(texts[i]).Some? ==> find.first(texts[i]).value in find.all(Join(texts, '\n'))
  }

  /** Validation reads the id of a rule as its first one. */
  ghost predicate ReadsFirst(k: Checks, find: IdFinder) {
    forall text :: k.ruleId(text).Some? ==> find.first(text) == k.ruleId(text)
  }

  lemma ValidInPlace(k: Checks, find: IdFinder, c: Configuration, now: int)
    requires Valid(k, c, now) && ReadsFirst(k, find)
    ensures IdsInPlace(find, c)
  {
    ValidInRange(k, c, now);
    forall i | 0 <= i < |c.customRules| ensures find.first(c.customRules[i].text) == Some(c.customRules[i].ruleId) {
      assert ValidRule(k, c.customRules[i]);
    }
  }

  lemma ValidInRange(k: Checks, c: Configuration, now: int)
    requires Valid(k, c, now)
    ensures ValidIds(c) && RangesKept(c.customRules)
  {
    forall i | 0 <= i < |c.customRules| ensures RangeKept(c.customRules[i]) { assert ValidRule(k, c.customRules[i]); }
  }

  /** The id under which an added rule is recorded is an enterprise id that no rule has. */
  predicate Fresh(find: IdFinder, c: Configuration, edit: Edit) {
    match edit
    case AddRule(x, text) =>
      GivenId(find, c).Some? && find.first(text(GivenId(find, c).value)).Some?
      && var shown := find.first(text(GivenId(find, c).value)).value;
         InNamespace(Enterprise, shown) && shown !in Map(RuleId, c.customRules)
    case _ => true
  }

  /** The given id is such an id: no allocated id is in use. */
  lemma GivenIsFree(find: IdFinder, c: Configuration)
    requires IdsShown(find, c.customRules) && Finds(find) && GivenId(find, c).Some?
    ensures InNamespace(Enterprise, GivenId(find, c).value) && GivenId(find, c).value !in Map(RuleId, c.customRules)
  {
    var texts := Map(TextOfRule, c.customRules);
    LeastFreeIs(find.all(Join(texts, '\n')), EnterpriseMin, EnterpriseMax);
    forall i | 0 <= i < |c.customRules| ensures c.customRules[i].ruleId in find.all(Join(texts, '\n')) {
      assert find.first(texts[i]).Some?;
    }
  }

  lemma RemovedRulesKept(find: IdFinder, c: Configuration, id: string)
    requires RangesKept(c.customRules) && IdsShown(find, c.customRules)
    ensures var s := Renumber(PlaceRule, Filter(KeepRule(id), c.customRules)); RangesKept(s) && IdsShown(find, s)
  {
    var kept := Filter(KeepRule(id), c.customRules);
    forall i | 0 <= i < |kept| ensures RangeKept(kept[i]) && find.first(kept[i].text) == Some(kept[i].ruleId) {
      FilterMember(KeepRule(id), c.customRules, i);
    }
  }

  /** Every edit keeps ids distinct and in their ranges, but for an added rule that is not fresh. */
  lemma EditKeepsIds(find: IdFinder, c: Configuration, edit: Edit, now: int, e: Configuration)
    requires IdsInPlace(find, c) && Edited(find, c, edit, now) == Some(e)
    ensures IdsInPlace(find, e) <==> Fresh(find, c, edit)
    ensures IdsShown(find, e.customRules)
  {
    assert RulesAbove(c.customRules) by {
      assert forall i :: 0 <= i < |c.customRules| ==> RangeKept(c.customRules[i]);
    }
    match edit
    case AddException(x) => AddExceptionKeepsIds(c, x, if x.stage == AfterCrs then 0 else LeastFree(UsedIds(c), GeneratedMin, GeneratedMax).value);
    case AddIp(x) => AddIpKeepsIds(c, x, LeastFree(UsedIds(c), GeneratedMin, GeneratedMax).value);
    case AddRule(x, text) => AddedIds(find, c, x, text, e);
    case RemoveRule(id) =>
      RemovalKeepsIds(find, c, edit, now, e);
      RemovedRulesKept(find, c, id);
    case _ => RemovalKeepsIds(find, c, edit, now, e);
  }

  lemma AddedIds(find: IdFinder, c: Configuration, x: CustomRule, text: int -> string, e: Configuration)
    requires IdsInPlace(find, c) && Added(find, c, x, text) == Some(e)
    ensures IdsInPlace(find, e) <==> Fresh(find, c, AddRule(x, text))
    ensures IdsShown(find, e.customRules)
  {
    var line := text(GivenId(find, c).value);
    var shown := find.first(line).value;
    var rule := e.customRules[|c.customRules|];
    assert rule.ruleId == shown && !rule.legacyRange && rule.scope == Enterprise && rule.text == line;
    forall i | 0 <= i < |c.customRules| ensures e.customRules[i] == c.customRules[i] {}
    if InNamespace(Enterprise, shown) {
      AddRuleKeepsIds(c, x, line, shown);
    } else {
      assert !RangeKept(rule);
    }
  }

  lemma {:induction false} InsertIds<T>(id: T -> int, le: (T, T) -> bool, s: seq<T>, x: T)
    ensures multiset(Map(id, Insert(le, s, x))) == multiset(Map(id, s)) + multiset{id(x)}
  {
    if s != [] && !le(s[|s| - 1], x) {
      var front, last := s[..|s| - 1], s[|s| - 1];
      InsertIds(id, le, front, x);
      assert Map(id, s) == Map(id, front) + [id(last)];
      assert Map(id, Insert(le, front, x) + [last]) == Map(id, Insert(le, front, x)) + [id(last)];
    } else {
      assert Map(id, s + [x]) == Map(id, s) + [id(x)];
    }
  }

  /** Sorting keeps the ids, each as often. */
  lemma {:induction false} SortIds<T>(id: T -> int, le: (T, T) -> bool, s: seq<T>)
    ensures multiset(Map(id, Sort(le, s))) == multiset(Map(id, s))
  {
    if s != [] {
      var front, last := s[..|s| - 1], s[|s| - 1];
      SortIds(id, le, front);
      InsertIds(id, le, Sort(le, front), last);
      assert Map(id, s) == Map(id, front) + [id(last)];
    }
  }

  lemma {:induction false} FilterCount(keep: int -> bool, s: seq<int>, x: int)
    ensures multiset(Filter(keep, s))[x] == if keep(x) then multiset(s)[x] else 0
  {
    if s != [] {
      FilterCount(keep, s[..|s| - 1], x);
      assert s == s[..|s| - 1] + [s[|s| - 1]];
    }
  }

  lemma {:induction false} DistinctCount(s: seq<int>)
    ensures NoDuplicates(s) <==> forall x :: multiset(s)[x] <= 1
  {
    if s != [] {
      var front, last := s[..|s| - 1], s[|s| - 1];
      assert s == front + [last];
      DistinctCount(front);
      NoDuplicatesSnoc(front, last);
      assert multiset(s) == multiset(front) + multiset{last};
      assert last in front <==> multiset(front)[last] >= 1;
      if forall x :: multiset(s)[x] <= 1 {
        forall x ensures multiset(front)[x] <= 1 { assert multiset(s)[x] >= multiset(front)[x]; }
        assert multiset(s)[last] <= 1;
      }
    }
  }

  lemma {:induction false} SameIdsFewer(a: seq<int>, b: seq<int>)
    requires multiset(a) == multiset(b)
    ensures Fewer(a, b)
  {
    DistinctCount(a);
    DistinctCount(b);
    forall i | 0 <= i < |a| ensures a[i] in b { assert a[i] in multiset(a); }
  }

  lemma {:induction false} SameReserved(s: seq<Exclusion>, t: seq<Exclusion>)
    requires multiset(Map(ExclusionId, s)) == multiset(Map(ExclusionId, t))
    ensures Fewer(Reserved(s), Reserved(t))
  {
    var keep := (id: int) => id != 0;
    var a, b := Map(ExclusionId, s), Map(ExclusionId, t);
    FilterSame((id: int) => id != 0, keep, a);
    FilterSame((id: int) => id != 0, keep, b);
    assert multiset(Filter(keep, a)) == multiset(Filter(keep, b)) by {
      forall x ensures multiset(Filter(keep, a))[x] == multiset(Filter(keep, b))[x] {
        FilterCount(keep, a, x);
        FilterCount(keep, b, x);
      }
    }
    SameIdsFewer(Filter(keep, a), Filter(keep, b));
  }

  lemma FewerTrans(a: seq<int>, b: seq<int>, c: seq<int>)
    requires Fewer(a, b) && Fewer(b, c)
    ensures Fewer(a, c)
  {
  }

  lemma {:induction false} NormalExclusionIds(f: Cleanup, s: seq<Exclusion>)
    ensures Fewer(Reserved(Map(BlankExclusion, Sort(ExclusionOrder, Map(CleanExclusion(f), s)))), Reserved(s))
  {
    var clean := Map(CleanExclusion(f), s);
    var sorted := Sort(ExclusionOrder, clean);
    SortIds(ExclusionId, ExclusionOrder, clean);
    assert Map(ExclusionId, clean) == Map(ExclusionId, s) && Map(ExclusionId, Map(BlankExclusion, sorted)) == Map(ExclusionId, sorted);
    SameReserved(Map(BlankExclusion, sorted), s);
  }

  lemma {:induction false} NormalRuleIds(f: Cleanup, s: seq<CustomRule>)
    ensures Fewer(Map(RuleId, Map(BlankRule, Sort(RuleOrder, Map(CleanRule(f), s)))), Map(RuleId, s))
    ensures RangesKept(s) ==> RangesKept(Map(BlankRule, Sort(RuleOrder, Map(CleanRule(f), s))))
  {
    var clean := Map(CleanRule(f), s);
    var sorted := Sort(RuleOrder, clean);
    SortIds(RuleId, RuleOrder, clean);
    assert Map(RuleId, clean) == Map(RuleId, s) && Map(RuleId, Map(BlankRule, sorted)) == Map(RuleId, sorted);
    SameIdsFewer(Map(RuleId, Map(BlankRule, sorted)), Map(RuleId, s));
    if RangesKept(s) {
      SortKeeps(RuleOrder, clean);
      forall i | 0 <= i < |sorted| ensures RangeKept(sorted[i]) {
        assert sorted[i] in clean;
        var j :| 0 <= j < |clean| && clean[j] == sorted[i];
        assert RangeKept(s[j]);
      }
    }
  }

  lemma {:induction false} NormalIpIds(f: Cleanup, keep: IpRule -> bool, s: seq<IpRule>)
    ensures Fewer(Map(IpId, Map(BlankIp, Sort(IpOrder, Map(CleanIp(f), Filter(keep, s))))), Map(IpId, s))
  {
    var kept := Filter(keep, s);
    var clean := Map(CleanIp(f), kept);
    var sorted := Sort(IpOrder, clean);
    SortIds(IpId, IpOrder, clean);
    assert Map(IpId, clean) == Map(IpId, kept) && Map(IpId, Map(BlankIp, sorted)) == Map(IpId, sorted);
    SameIdsFewer(Map(IpId, Map(BlankIp, sorted)), Map(IpId, kept));
    FilterIds(IpId, keep, s);
    FewerTrans(Map(IpId, Map(BlankIp, sorted)), Map(IpId, kept), Map(IpId, s));
  }

  /** Cleaning a rule text keeps the id it shows first. */
  ghost predicate CleanShows(f: Cleanup, find: IdFinder) { forall text :: find.first(f.canonical(text)) == find.first(text) }

  lemma {:induction false} NormalShown(f: Cleanup, find: IdFinder, s: seq<CustomRule>)
    requires CleanShows(f, find) && IdsShown(find, s)
    ensures IdsShown(find, Map(BlankRule, Sort(RuleOrder, Map(CleanRule(f), s))))
  {
    var clean := Map(CleanRule(f), s);
    var sorted := Sort(RuleOrder, clean);
    SortKeeps(RuleOrder, clean);
    forall i | 0 <= i < |sorted| ensures find.first(sorted[i].text) == Some(sorted[i].ruleId) {
      assert sorted[i] in clean;
      var j :| 0 <= j < |clean| && clean[j] == sorted[i];
      assert find.first(f.canonical(s[j].text)) == find.first(s[j].text);
    }
  }

  /** Dropping expired rules, sorting and cleaning keep the ids in place. */
  lemma {:induction false} PreparedKeepsIds(f: Cleanup, find: IdFinder, c: Configuration, now: int)
    requires CleanShows(f, find) && IdsInPlace(find, c)
    ensures IdsInPlace(find, Prepared(f, c, now))
  {
    NormalExclusionIds(f, c.exclusions);
    NormalRuleIds(f, c.customRules);
    NormalIpIds(f, KeepActive(now), c.ipRules);
    NormalShown(f, find, c.customRules);
    FewerValid(c, Prepared(f, c, now));
  }

  lemma {:induction false} LoadedKeepsIds(find: IdFinder, c: Configuration, loaded: Configuration)
    requires IdsInPlace(find, c) && BlankIds(loaded) == BlankIds(c)
    ensures IdsInPlace(find, loaded)
  {
    var a, b := BlankIds(loaded), BlankIds(c);
    assert Map(ExclusionId, loaded.exclusions) == Map(ExclusionId, a.exclusions) && Map(ExclusionId, c.exclusions) == Map(ExclusionId, b.exclusions);
    assert Map(IpId, loaded.ipRules) == Map(IpId, a.ipRules) && Map(IpId, c.ipRules) == Map(IpId, b.ipRules);
    assert Map(RuleId, loaded.customRules) == Map(RuleId, a.customRules) && Map(RuleId, c.customRules) == Map(RuleId, b.customRules);
    FewerSelf(Reserved(c.exclusions));
    FewerSelf(Map(IpId, c.ipRules));
    FewerSelf(Map(RuleId, c.customRules));
    FewerValid(c, loaded);
    forall i | 0 <= i < |loaded.customRules|
      ensures RangeKept(loaded.customRules[i]) && find.first(loaded.customRules[i].text) == Some(loaded.customRules[i].ruleId)
    {
      assert a.customRules[i] == b.customRules[i] && RangeKept(c.customRules[i]);
    }
  }

  // ---------------------------------------------------------------- requests and runs

  lemma {:induction false} SortedRuleIds(f: Cleanup, s: seq<CustomRule>)
    ensures var r := Map(BlankRule, Sort(RuleOrder, Map(CleanRule(f), s)));
            (NoDuplicates(Map(RuleId, r)) ==> NoDuplicates(Map(RuleId, s))) && (RangesKept(r) ==> RangesKept(s))
  {
    var clean := Map(CleanRule(f), s);
    var sorted := Sort(RuleOrder, clean);
    var r := Map(BlankRule, sorted);
    SortIds(RuleId, RuleOrder, clean);
    assert Map(RuleId, clean) == Map(RuleId, s) && Map(RuleId, r) == Map(RuleId, sorted);
    SameIdsFewer(Map(RuleId, s), Map(RuleId, r));
    if RangesKept(r) {
      SortKeeps(RuleOrder, clean);
      forall i | 0 <= i < |s| ensures RangeKept(s[i]) {
        assert clean[i] in sorted;
        var j :| 0 <= j < |sorted| && sorted[j] == clean[i];
        assert RangeKept(r[j]);
      }
    }
  }

  /** What is wrong with an added rule that is not fresh is wrong after preparing too. */
  lemma {:induction false} NotFreshPrepared(f: Cleanup, find: IdFinder, c: Configuration, edit: Edit, now: int, e: Configuration)
    requires IdsInPlace(find, c) && Edited(find, c, edit, now) == Some(e) && !Fresh(find, c, edit)
    ensures !(ValidIds(Prepared(f, e, now)) && RangesKept(Prepared(f, e, now).customRules))
  {
    var p := Prepared(f, e, now);
    NotFreshRules(find, c, edit, now, e);
    SortedRuleIds(f, e.customRules);
    assert p.customRules == Map(BlankRule, Sort(RuleOrder, Map(CleanRule(f), e.customRules)));
    NoDuplicatesConcat(Reserved(p.exclusions) + Map(IpId, p.ipRules), Map(RuleId, p.customRules));
  }

  lemma {:induction false} NotFreshRules(find: IdFinder, c: Configuration, edit: Edit, now: int, e: Configuration)
    requires IdsInPlace(find, c) && Edited(find, c, edit, now) == Some(e) && !Fresh(find, c, edit)
    ensures !NoDuplicates(Map(RuleId, e.customRules)) || !RangesKept(e.customRules)
  {
    var line := edit.text(GivenId(find, c).value);
    var shown := find.first(line).value;
    var rule := e.customRules[|c.customRules|];
    assert rule.ruleId == shown && !rule.legacyRange && rule.scope == Enterprise;
    if InNamespace(Enterprise, shown) {
      assert Map(RuleId, e.customRules) == Map(RuleId, c.customRules) + [shown];
      NoDuplicatesSnoc(Map(RuleId, c.customRules), shown);
    } else {
      assert !RangeKept(rule);
    }
  }

  /** What an edit of the loaded configuration gives, once prepared, has its ids in place before any check is made,
      but for an added rule that is not fresh, which every validation refuses. */
  lemma {:induction false} RequestKeepsIds(f: Cleanup, k: Checks, find: IdFinder, c: Configuration, r: Request, e: Configuration)
    requires CleanShows(f, find) && IdsInPlace(find, c) && BlankIds(r.loaded) == BlankIds(c)
    requires Edited(find, r.loaded, r.edit, r.now) == Some(e)
    ensures IdsInPlace(find, Prepared(f, e, r.now)) <==> Fresh(find, r.loaded, r.edit)
    ensures Valid(k, Prepared(f, e, r.now), r.now) ==> Fresh(find, r.loaded, r.edit)
  {
    LoadedKeepsIds(find, c, r.loaded);
    EditKeepsIds(find, r.loaded, r.edit, r.now, e);
    if Fresh(find, r.loaded, r.edit) {
      PreparedKeepsIds(f, find, e, r.now);
    } else {
      NotFreshPrepared(f, find, r.loaded, r.edit, r.now, e);
      if Valid(k, Prepared(f, e, r.now), r.now) { ValidInRange(k, Prepared(f, e, r.now), r.now); }
    }
  }

  /** After every run of edits, what the next edit gives has its ids distinct, in their ranges and shown by the rule
      texts, before the checks are made, if and only if it is not an added rule whose first shown id is taken or no
      enterprise id; and such a rule is refused by the checks. The configuration itself, which passed them, keeps its
      ids in place. */
  lemma {:induction false} RunsKeepIds(f: Cleanup, k: Checks, find: IdFinder, c: Configuration, requests: seq<Request>, next: Request, e: Configuration)
    requires CleanShows(f, find) && IdsInPlace(find, c) && LoadsCurrent(f, k, find, c, requests)
    ensures BlankIds(next.loaded) == BlankIds(Run(f, k, find, c, requests)) && Edited(find, next.loaded, next.edit, next.now) == Some(e) ==>
              (IdsInPlace(find, Prepared(f, e, next.now)) <==> Fresh(find, next.loaded, next.edit))
              && (Valid(k, Prepared(f, e, next.now), next.now) ==> Fresh(find, next.loaded, next.edit))
    ensures IdsInPlace(find, Run(f, k, find, c, requests))
    decreases |requests|
  {
    if requests != [] {
      var front, last := requests[..|requests| - 1], requests[|requests| - 1];
      LoadsFront(f, k, find, c, requests);
      var edited := Edited(find, last.loaded, last.edit, last.now);
      RunsKeepIds(f, k, find, c, front, last, if edited.Some? then edited.value else c);
    }
    if BlankIds(next.loaded) == BlankIds(Run(f, k, find, c, requests)) && Edited(find, next.loaded, next.edit, next.now) == Some(e) {
      RequestKeepsIds(f, k, find, Run(f, k, find, c, requests), next, e);
    }
  }
}
