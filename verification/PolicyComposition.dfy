/** A signed base and an enterprise override that are rendered apart and applied together
    (internal/manager/policy_delivery.go, internal/policybundle/bundle.go). */
module PolicyComposition {
  import opened Prelude
  import opened Policy

  // ---------------------------------------------------------------- what bundles are rendered from

  datatype BundleCondition = BundleCondition(field: string, operator: string, value: string)

  datatype BundleExclusion = BundleExclusion(kind: Kind, stage: Stage, ruleId: int, ruleTag: string, target: string,
                                             generatedId: int, enabled: bool, conditions: seq<BundleCondition>)

  datatype BundleRule = BundleRule(ruleId: int, scope: Scope, text: string, enabled: bool)

  datatype BundleIp = BundleIp(action: IpAction, network: string, generatedId: int, enabled: bool)

  datatype Engine = Engine(mode: string, requestBody: bool, responseBody: bool)

  datatype Input = Input(engine: Engine, setup: map<string, string>, exclusions: seq<BundleExclusion>,
                         rules: seq<BundleRule>, ips: seq<BundleIp>)

  datatype OverrideInput = OverrideInput(includeScalars: bool, input: Input)

  function ToExclusion(item: Exclusion): BundleExclusion {
    BundleExclusion(item.kind, item.stage, item.ruleId, item.ruleTag, item.target, item.generatedId, item.enabled,
                    Map((c: Condition) => BundleCondition(c.field, c.operator, c.value), item.conditions))
  }

  function ToRule(item: CustomRule): BundleRule { BundleRule(item.ruleId, item.scope, item.text, item.enabled) }

  function ToIp(item: IpRule): BundleIp { BundleIp(item.action, item.network, item.generatedId, item.enabled) }

  function ToEngine(s: Scalars): Engine { Engine(s.mode, s.requestBody, s.responseBody) }

  /** policyBundleInputFromConfiguration. */
  function InputOf(core: Scalars -> map<string, string>, c: Configuration): Input {
    Input(ToEngine(c.scalars), SetupMap(core, c), Map(ToExclusion, c.exclusions), Map(ToRule, c.customRules), Map(ToIp, c.ipRules))
  }

  // ---------------------------------------------------------------- layers

  function SetupIn(scope: Scope): Setup -> bool { (x: Setup) => x.scope == scope }

  function ExclusionIn(scope: Scope): Exclusion -> bool { (x: Exclusion) => x.scope == scope }

  function RuleIn(scope: Scope): CustomRule -> bool { (x: CustomRule) => x.scope == scope }

  function IpIn(scope: Scope): IpRule -> bool { (x: IpRule) => x.scope == scope }

  /** How scalars are chosen: taken from the base, given by the enterprise, or kept from before there was a choice. */
  datatype ScalarSource = Inherit | Custom | Unset

  /** policyOverrideFromConfiguration. */
  function OverrideOf(core: Scalars -> map<string, string>, c: Configuration, source: ScalarSource): OverrideInput {
    var values := if source.Inherit? then map[] else SetupMap(core, c);
    OverrideInput(!source.Inherit?,
                  Input(ToEngine(c.scalars), PutAll(values, Filter(SetupIn(Enterprise), c.setup)),
                        Map(ToExclusion, Filter(ExclusionIn(Enterprise), c.exclusions)),
                        Map(ToRule, Filter(RuleIn(Enterprise), c.customRules)), Map(ToIp, Filter(IpIn(Enterprise), c.ipRules))))
  }

  /** Appends what is kept, as the loops of the builders do. */
  method Collect<A, B>(keep: A -> bool, f: A -> B, s: seq<A>) returns (r: seq<B>)
    ensures r == Map(f, Filter(keep, s))
  {
    r := [];
    var i := 0;
    while i < |s|
      invariant 0 <= i <= |s| && r == Map(f, Filter(keep, s[..i]))
    {
      assert s[..i + 1][..i] == s[..i];
      if keep(s[i]) { r := r + [f(s[i])]; }
      i := i + 1;
    }
    assert s[..i] == s;
  }

  lemma {:induction false} CollectOne(before: map<string, string>, setup: seq<Setup>, i: nat)
    requires i < |setup|
    ensures var values := PutAll(before, Filter(SetupIn(Enterprise), setup[..i]));
            PutAll(before, Filter(SetupIn(Enterprise), setup[..i + 1]))
            == if setup[i].scope == Enterprise then values[setup[i].key := setup[i].value] else values
  {
    assert setup[..i + 1][..i] == setup[..i];
    var own := Filter(SetupIn(Enterprise), setup[..i]);
    assert (own + [setup[i]])[..|own|] == own;
  }

  /** Puts the enterprise setup values over `before`, the later ones over the earlier ones. */
  method CollectSetup(before: map<string, string>, setup: seq<Setup>) returns (values: map<string, string>)
    ensures values == PutAll(before, Filter(SetupIn(Enterprise), setup))
  {
    values := before;
    var i := 0;
    while i < |setup|
      invariant 0 <= i <= |setup| && values == PutAll(before, Filter(SetupIn(Enterprise), setup[..i]))
    {
      CollectOne(before, setup, i);
      if setup[i].scope == Enterprise { values := values[setup[i].key := setup[i].value]; }
      i := i + 1;
    }
    assert setup[..i] == setup;
  }

  method PolicyOverrideFromConfiguration(core: Scalars -> map<string, string>, c: Configuration, source: ScalarSource)
    returns (r: OverrideInput)
    ensures r == OverrideOf(core, c, source)
  {
    var values := CollectSetup(if source.Inherit? then map[] else SetupMap(core, c), c.setup);
    var exclusions := Collect(ExclusionIn(Enterprise), ToExclusion, c.exclusions);
    var rules := Collect(RuleIn(Enterprise), ToRule, c.customRules);
    var ips := Collect(IpIn(Enterprise), ToIp, c.ipRules);
    return OverrideInput(!source.Inherit?, Input(ToEngine(c.scalars), values, exclusions, rules, ips));
  }

  /** The system layer without item ids; digests of it are equal exactly when it is. */
  datatype SystemLayer = SystemLayer(setup: seq<Setup>, exclusions: seq<Exclusion>, rules: seq<CustomRule>, ips: seq<IpRule>)

  function SystemLayerOf(c: Configuration): SystemLayer {
    SystemLayer(Filter(SetupIn(System), c.setup), Map(BlankExclusion, Filter(ExclusionIn(System), c.exclusions)),
                Map(BlankRule, Filter(RuleIn(System), c.customRules)), Map(BlankIp, Filter(IpIn(System), c.ipRules)))
  }

  /** validatePolicyComposition. */
  predicate ValidComposition(base: Configuration, effective: Configuration, source: ScalarSource) {
    && base.release == effective.release && base.namespace == effective.namespace
    && (source.Inherit? ==> base.scalars == effective.scalars)
    && SystemLayerOf(base) == SystemLayerOf(effective)
  }

  // ---------------------------------------------------------------- composition

  /** Applying the override after the base: later files win for engine and setup values, lists go one after the
      other. A rendered override holds engine and setup values only when it includes the scalars. */
  function Compose(base: Input, over: OverrideInput): Input {
    Input(if over.includeScalars then over.input.engine else base.engine,
          if over.includeScalars then base.setup + over.input.setup else base.setup,
          base.exclusions + over.input.exclusions, base.rules + over.input.rules, base.ips + over.input.ips)
  }

  /** The same with the setup values of the override always laid over the base. */
  function Overlay(base: Input, over: OverrideInput): Input {
    Compose(base, over).(setup := base.setup + over.input.setup)
  }

  /** Splitting a list by layer and joining the parts gives it back exactly when its system items come first. */
  lemma {:induction false} SplitJoin<T>(system: T -> bool, enterprise: T -> bool, s: seq<T>)
    requires forall x :: enterprise(x) == !system(x)
    ensures Filter(system, s) + Filter(enterprise, s) == s <==> forall i, j :: 0 <= i < j < |s| && system(s[j]) ==> system(s[i])
  {
    FilterKeeps(system, s);
    FilterKeeps(enterprise, s);
    if Filter(system, s) + Filter(enterprise, s) == s {
      var n := |Filter(system, s)|;
      forall i, j | 0 <= i < j < |s| && system(s[j]) ensures system(s[i]) {
        assert s[i] == Filter(system, s)[i];
      }
    }
    if forall i, j :: 0 <= i < j < |s| && system(s[j]) ==> system(s[i]) {
      PrefixSplit(system, enterprise, s);
    }
  }

  lemma {:induction false} PrefixSplit<T>(system: T -> bool, enterprise: T -> bool, s: seq<T>)
    requires forall x :: enterprise(x) == !system(x)
    requires forall i, j :: 0 <= i < j < |s| && system(s[j]) ==> system(s[i])
    ensures Filter(system, s) + Filter(enterprise, s) == s
  {
    if s != [] {
      var front, last := s[..|s| - 1], s[|s| - 1];
      assert s == front + [last];
      if system(last) {
        FilterAll(system, front);
        FilterNone(enterprise, front);
        assert s + [] == s;
      } else {
        PrefixSplit(system, enterprise, front);
        assert Filter(system, front) + (Filter(enterprise, front) + [last]) == Filter(system, front) + Filter(enterprise, front) + [last];
      }
    }
  }

  // ---------------------------------------------------------------- setup values

  /** Value of the last item with a key. */
  function LookUp(items: seq<Setup>, key: string): Option<string> {
    if items == [] then None
    else if items[|items| - 1].key == key then Some(items[|items| - 1].value)
    else LookUp(items[..|items| - 1], key)
  }

  function Get(m: map<string, string>, key: string): Option<string> { if key in m then Some(m[key]) else None }

  function Or(a: Option<string>, b: Option<string>): Option<string> { if a.Some? then a else b }

  lemma {:induction false} PutAllIs(m: map<string, string>, items: seq<Setup>, key: string)
    ensures Get(PutAll(m, items), key) == Or(LookUp(items, key), Get(m, key))
  {
    if items != [] { PutAllIs(m, items[..|items| - 1], key); }
  }

  predicate UniqueKeys(items: seq<Setup>) { forall i, j :: 0 <= i < j < |items| ==> items[i].key != items[j].key }

  lemma {:induction false} LookUpItem(items: seq<Setup>, i: nat)
    requires i < |items| && UniqueKeys(items)
    ensures LookUp(items, items[i].key) == Some(items[i].value)
  {
    if i < |items| - 1 { LookUpItem(items[..|items| - 1], i); }
  }

  lemma {:induction false} LookUpFound(items: seq<Setup>, key: string) returns (i: nat)
    requires LookUp(items, key).Some?
    ensures i < |items| && items[i].key == key && LookUp(items, key) == Some(items[i].value)
  {
    if items[|items| - 1].key == key {
      i := |items| - 1;
    } else {
      i := LookUpFound(items[..|items| - 1], key);
    }
  }

  /** With unique keys the layers can be searched one after the other. */
  lemma {:induction false} LookUpLayers(items: seq<Setup>, key: string)
    requires UniqueKeys(items)
    ensures LookUp(items, key) == Or(LookUp(Filter(SetupIn(Enterprise), items), key), LookUp(Filter(SetupIn(System), items), key))
    ensures LookUp(Filter(SetupIn(Enterprise), items), key).Some? ==> LookUp(Filter(SetupIn(System), items), key).None?
  {
    if items != [] {
      var front, last := items[..|items| - 1], items[|items| - 1];
      LookUpLayers(front, key);
      FilterSnoc(SetupIn(Enterprise), front, last, key);
      FilterSnoc(SetupIn(System), front, last, key);
      assert items == front + [last];
      if last.key == key && LookUp(front, key).Some? {
        var i := LookUpFound(front, key);
        assert false;
      }
    }
  }

  lemma FilterSnoc(keep: Setup -> bool, front: seq<Setup>, last: Setup, key: string)
    ensures LookUp(Filter(keep, front + [last]), key)
         == if keep(last) && last.key == key then Some(last.value) else LookUp(Filter(keep, front), key)
  {
    assert (front + [last])[..|front|] == front;
    assert (Filter(keep, front) + [last])[..|Filter(keep, front)|] == Filter(keep, front);
  }

  // ---------------------------------------------------------------- split, then compose

  /** A base with system items only. */
  predicate SystemOnly(c: Configuration) {
    && (forall i :: 0 <= i < |c.setup| ==> c.setup[i].scope == System)
    && (forall i :: 0 <= i < |c.exclusions| ==> c.exclusions[i].scope == System)
    && (forall i :: 0 <= i < |c.customRules| ==> c.customRules[i].scope == System)
    && (forall i :: 0 <= i < |c.ipRules| ==> c.ipRules[i].scope == System)
  }

  /** In every list of items the system layer comes first. */
  predicate SystemFirst(c: Configuration) {
    && (forall i, j :: 0 <= i < j < |c.exclusions| && c.exclusions[j].scope == System ==> c.exclusions[i].scope == System)
    && (forall i, j :: 0 <= i < j < |c.customRules| && c.customRules[j].scope == System ==> c.customRules[i].scope == System)
    && (forall i, j :: 0 <= i < j < |c.ipRules| && c.ipRules[j].scope == System ==> c.ipRules[i].scope == System)
  }

  lemma MapThrough<A, B>(f: A -> B, blank: A -> A, a: seq<A>, b: seq<A>)
    requires Map(blank, a) == Map(blank, b) && forall x :: f(blank(x)) == f(x)
    ensures Map(f, a) == Map(f, b)
  {
    assert |a| == |b|;
    forall i | 0 <= i < |a| ensures f(a[i]) == f(b[i]) {
      assert Map(blank, a)[i] == blank(a[i]) && Map(blank, b)[i] == blank(b[i]);
      assert f(blank(a[i])) == f(blank(b[i]));
    }
  }

  /** One list: the base's items, then the override's, are the effective ones. */
  lemma ListComposes<A, B>(f: A -> B, blank: A -> A, system: A -> bool, enterprise: A -> bool, base: seq<A>, effective: seq<A>)
    requires forall x :: enterprise(x) == !system(x)
    requires forall x :: f(blank(x)) == f(x)
    requires forall i :: 0 <= i < |base| ==> system(base[i])
    requires Map(blank, Filter(system, base)) == Map(blank, Filter(system, effective))
    requires forall i, j :: 0 <= i < j < |effective| && system(effective[j]) ==> system(effective[i])
    ensures Map(f, base) + Map(f, Filter(enterprise, effective)) == Map(f, effective)
  {
    FilterAll(system, base);
    MapThrough(f, blank, base, Filter(system, effective));
    PrefixSplit(system, enterprise, effective);
    MapAppend(f, Filter(system, effective), Filter(enterprise, effective));
  }

  lemma ListsCompose(core: Scalars -> map<string, string>, base: Configuration, effective: Configuration, source: ScalarSource)
    requires ValidComposition(base, effective, source) && SystemOnly(base) && SystemFirst(effective)
    ensures var c := Compose(InputOf(core, base), OverrideOf(core, effective, source));
            c.exclusions == Map(ToExclusion, effective.exclusions)
            && c.rules == Map(ToRule, effective.customRules) && c.ips == Map(ToIp, effective.ipRules)
  {
    ListComposes(ToExclusion, BlankExclusion, ExclusionIn(System), ExclusionIn(Enterprise), base.exclusions, effective.exclusions);
    ListComposes(ToRule, BlankRule, RuleIn(System), RuleIn(Enterprise), base.customRules, effective.customRules);
    ListComposes(ToIp, BlankIp, IpIn(System), IpIn(Enterprise), base.ipRules, effective.ipRules);
  }

  /** Which values the scalars decide does not depend on them. */
  ghost predicate CoreFixed(core: Scalars -> map<string, string>, keys: set<string>) {
    forall s :: core(s).Keys == keys
  }

  /** Value under a key in the setup map of a configuration. */
  lemma SetupMapIs(core: Scalars -> map<string, string>, c: Configuration, key: string)
    ensures Get(SetupMap(core, c), key) == Or(Get(core(c.scalars), key), LookUp(c.setup, key))
  {
    PutAllIs(map[], c.setup, key);
  }

  /** Value under a key when the override's setup values are laid over the base's. */
  lemma OverlayIs(core: Scalars -> map<string, string>, keys: set<string>, base: Configuration, effective: Configuration,
                  source: ScalarSource, key: string)
    requires CoreFixed(core, keys) && ValidComposition(base, effective, source) && SystemOnly(base) && UniqueKeys(effective.setup)
    ensures Get(Overlay(InputOf(core, base), OverrideOf(core, effective, source)).setup, key)
         == Or(LookUp(Filter(SetupIn(Enterprise), effective.setup), key), Get(SetupMap(core, effective), key))
  {
    var own := Filter(SetupIn(Enterprise), effective.setup);
    var values := if source.Inherit? then map[] else SetupMap(core, effective);
    PutAllIs(values, own, key);
    SetupMapIs(core, base, key);
    SetupMapIs(core, effective, key);
    LookUpLayers(effective.setup, key);
    FilterAll(SetupIn(System), base.setup);
    assert key in core(base.scalars) <==> key in keys;
    assert key in core(effective.scalars) <==> key in keys;
  }

  lemma SameMap(a: map<string, string>, b: map<string, string>)
    requires forall key :: Get(a, key) == Get(b, key)
    ensures a == b
  {
    assert forall key :: key in a ==> Get(b, key) == Get(a, key);
    assert forall key :: key in b ==> Get(a, key) == Get(b, key);
  }

  /** Laying the override's setup values over the base's gives the effective setup map exactly when no enterprise
      item contradicts a scalar. */
  lemma OverlaySetup(core: Scalars -> map<string, string>, keys: set<string>, base: Configuration, effective: Configuration, source: ScalarSource)
    requires CoreFixed(core, keys) && ValidComposition(base, effective, source) && SystemOnly(base) && UniqueKeys(effective.setup)
    ensures Overlay(InputOf(core, base), OverrideOf(core, effective, source)).setup == SetupMap(core, effective)
        <==> forall i :: 0 <= i < |effective.setup| && effective.setup[i].scope == Enterprise && effective.setup[i].key in keys ==>
               Get(core(effective.scalars), effective.setup[i].key) == Some(effective.setup[i].value)
  {
    var over := Overlay(InputOf(core, base), OverrideOf(core, effective, source)).setup;
    var own := Filter(SetupIn(Enterprise), effective.setup);
    if over == SetupMap(core, effective) {
      forall i | 0 <= i < |effective.setup| && effective.setup[i].scope == Enterprise && effective.setup[i].key in keys
        ensures Get(core(effective.scalars), effective.setup[i].key) == Some(effective.setup[i].value)
      {
        OverlayAt(core, keys, base, effective, source, i);
      }
    }
    if forall i :: 0 <= i < |effective.setup| && effective.setup[i].scope == Enterprise && effective.setup[i].key in keys ==>
         Get(core(effective.scalars), effective.setup[i].key) == Some(effective.setup[i].value)
    {
      forall key ensures Get(over, key) == Get(SetupMap(core, effective), key) {
        OverlayIs(core, keys, base, effective, source, key);
        SetupMapIs(core, effective, key);
        LookUpLayers(effective.setup, key);
        if LookUp(own, key).Some? {
          var i := OwnItem(effective.setup, key);
          LookUpItem(effective.setup, i);
          assert key in core(effective.scalars) <==> key in keys;
        }
      }
      SameMap(over, SetupMap(core, effective));
    }
  }

  /** An item of the enterprise layer that was found. */
  lemma OwnItem(items: seq<Setup>, key: string) returns (i: nat)
    requires UniqueKeys(items) && LookUp(Filter(SetupIn(Enterprise), items), key).Some?
    ensures i < |items| && items[i].key == key && items[i].scope == Enterprise
    ensures LookUp(Filter(SetupIn(Enterprise), items), key) == Some(items[i].value)
  {
    var front, last := items[..|items| - 1], items[|items| - 1];
    assert items == front + [last];
    FilterSnoc(SetupIn(Enterprise), front, last, key);
    if last.scope == Enterprise && last.key == key {
      i := |items| - 1;
    } else {
      i := OwnItem(front, key);
    }
  }

  lemma OwnFound(items: seq<Setup>, i: nat)
    requires UniqueKeys(items) && i < |items| && items[i].scope == Enterprise
    ensures LookUp(Filter(SetupIn(Enterprise), items), items[i].key) == Some(items[i].value)
  {
    LookUpItem(items, i);
    LookUpLayers(items, items[i].key);
    if LookUp(Filter(SetupIn(Enterprise), items), items[i].key).None? { NotSystem(items, i); }
  }

  lemma {:induction false} NotSystem(items: seq<Setup>, i: nat)
    requires UniqueKeys(items) && i < |items| && items[i].scope == Enterprise
    ensures LookUp(Filter(SetupIn(System), items), items[i].key).None?
  {
    var front, last := items[..|items| - 1], items[|items| - 1];
    assert items == front + [last];
    FilterSnoc(SetupIn(System), front, last, items[i].key);
    if i < |front| {
      NotSystem(front, i);
    } else {
      NoKey(front, last.key);
    }
  }

  lemma {:induction false} NoKey(items: seq<Setup>, key: string)
    requires forall i :: 0 <= i < |items| ==> items[i].key != key
    ensures LookUp(Filter(SetupIn(System), items), key).None?
  {
    if items != [] {
      var front, last := items[..|items| - 1], items[|items| - 1];
      assert items == front + [last];
      FilterSnoc(SetupIn(System), front, last, key);
      NoKey(front, key);
    }
  }

  lemma OverlayAt(core: Scalars -> map<string, string>, keys: set<string>, base: Configuration, effective: Configuration,
                  source: ScalarSource, i: nat)
    requires CoreFixed(core, keys) && ValidComposition(base, effective, source) && SystemOnly(base) && UniqueKeys(effective.setup)
    requires Overlay(InputOf(core, base), OverrideOf(core, effective, source)).setup == SetupMap(core, effective)
    requires i < |effective.setup| && effective.setup[i].scope == Enterprise && effective.setup[i].key in keys
    ensures Get(core(effective.scalars), effective.setup[i].key) == Some(effective.setup[i].value)
  {
    var key := effective.setup[i].key;
    OverlayIs(core, keys, base, effective, source, key);
    SetupMapIs(core, effective, key);
    OwnFound(effective.setup, i);
    assert key in core(effective.scalars);
  }

  /** Under inherited scalars the rendered override holds no setup values, so the effective setup map is reached
      exactly when every enterprise item is under a key that the scalars decide. */
  lemma InheritedSetup(core: Scalars -> map<string, string>, keys: set<string>, base: Configuration, effective: Configuration)
    requires CoreFixed(core, keys) && ValidComposition(base, effective, Inherit) && SystemOnly(base) && UniqueKeys(effective.setup)
    ensures Compose(InputOf(core, base), OverrideOf(core, effective, Inherit)).setup == SetupMap(core, effective)
        <==> forall i :: 0 <= i < |effective.setup| && effective.setup[i].scope == Enterprise ==> effective.setup[i].key in keys
  {
    var own := Filter(SetupIn(Enterprise), effective.setup);
    if SetupMap(core, base) == SetupMap(core, effective) {
      forall i | 0 <= i < |effective.setup| && effective.setup[i].scope == Enterprise ensures effective.setup[i].key in keys {
        InheritedAt(core, keys, base, effective, effective.setup[i].key);
        OwnFound(effective.setup, i);
        NotSystem(effective.setup, i);
      }
    }
    if forall i :: 0 <= i < |effective.setup| && effective.setup[i].scope == Enterprise ==> effective.setup[i].key in keys {
      forall key ensures Get(SetupMap(core, base), key) == Get(SetupMap(core, effective), key) {
        InheritedAt(core, keys, base, effective, key);
        if LookUp(own, key).Some? { var i := OwnItem(effective.setup, key); }
      }
      SameMap(SetupMap(core, base), SetupMap(core, effective));
    }
  }

  lemma InheritedAt(core: Scalars -> map<string, string>, keys: set<string>, base: Configuration, effective: Configuration, key: string)
    requires CoreFixed(core, keys) && ValidComposition(base, effective, Inherit) && SystemOnly(base) && UniqueKeys(effective.setup)
    ensures key in keys ==> Get(SetupMap(core, base), key) == Get(SetupMap(core, effective), key)
    ensures key !in keys ==>
              && Get(SetupMap(core, base), key) == LookUp(Filter(SetupIn(System), effective.setup), key)
              && Get(SetupMap(core, effective), key)
                 == Or(LookUp(Filter(SetupIn(Enterprise), effective.setup), key), LookUp(Filter(SetupIn(System), effective.setup), key))
  {
    SetupMapIs(core, base, key);
    SetupMapIs(core, effective, key);
    LookUpLayers(effective.setup, key);
    FilterAll(SetupIn(System), base.setup);
    assert key in core(effective.scalars) <==> key in keys;
  }

  /** Splitting a configuration into base and override and composing them again is the identity on everything a
      bundle is rendered from, setup values being laid over the base, exactly when no enterprise setup item
      contradicts a scalar; in particular when none is under a key that the scalars decide. */
  lemma SplitThenCompose(core: Scalars -> map<string, string>, keys: set<string>, base: Configuration, effective: Configuration, source: ScalarSource)
    requires CoreFixed(core, keys) && ValidComposition(base, effective, source) && SystemOnly(base)
    requires SystemFirst(effective) && UniqueKeys(effective.setup)
    ensures Overlay(InputOf(core, base), OverrideOf(core, effective, source)) == InputOf(core, effective)
        <==> forall i :: 0 <= i < |effective.setup| && effective.setup[i].scope == Enterprise && effective.setup[i].key in keys ==>
               Get(core(effective.scalars), effective.setup[i].key) == Some(effective.setup[i].value)
    ensures !source.Inherit? ==>
              (Compose(InputOf(core, base), OverrideOf(core, effective, source)) == Overlay(InputOf(core, base), OverrideOf(core, effective, source)))
  {
    ListsCompose(core, base, effective, source);
    OverlaySetup(core, keys, base, effective, source);
  }

  const CoreKeys: set<string> := {"blocking_paranoia_level", "detection_paranoia_level", "inbound_anomaly_score_threshold",
                                  "outbound_anomaly_score_threshold", "early_blocking", "sampling_percentage"}

  /** The keys in use. */
  lemma CoreMapFixed()
    ensures CoreFixed(CoreMap, CoreKeys)
  {
    forall s ensures CoreMap(s).Keys == CoreKeys {
      assert forall key :: key in CoreMap(s).Keys <==> key in CoreKeys;
    }
  }
}
