/** Concrete policies for which a round trip fails, with the clean-ups, rule texts and setup keys in use
    (internal/manager/policy_configuration.go, internal/manager/policy_delivery.go). */
module PolicyCases {
  import opened Prelude
  import opened Text
  import opened Policy
  import opened PolicyComposition
  import opened PolicyBuild
  import opened PolicyLayers
  import opened PolicyProjection
  import opened TemplateProjection
  import opened CustomRuleText
  import PolicyEdits

  const Usual := Scalars("On", 1, 1, 5, 4, true, false, false, 100)

  // ---------------------------------------------------------------- an enterprise setup item under inherited scalars

  const Bare := Configuration("", "policy", "revision", "v4.3.0", 1, Usual, "", [], [], [], [])

  /** The item is in the effective setup map and in none that the bundles compose. */
  lemma InheritedItemIsLost()
    ensures var effective := Bare.(setup := [Setup("allowed_methods", "GET", Enterprise)]);
            && ValidComposition(Bare, effective, Inherit) && SystemOnly(Bare)
            && Compose(InputOf(CoreMap, Bare), OverrideOf(CoreMap, effective, Inherit)).setup != SetupMap(CoreMap, effective)
  {
    var item := Setup("allowed_methods", "GET", Enterprise);
    var effective := Bare.(setup := [item]);
    CoreMapFixed();
    FilterNone(SetupIn(System), [item]);
    assert "allowed_methods" !in CoreKeys by { NotCore("allowed_methods", 'a'); }
    assert effective.setup[0].scope == Enterprise;
    InheritedSetup(CoreMap, CoreKeys, Bare, effective);
  }

  lemma NotCore(key: string, first: char)
    requires key != "" && key[0] == first && first != 'b' && first != 'd' && first != 'i' && first != 'o' && first != 'e' && first != 's'
    ensures key !in CoreKeys
  {
  }

  // ---------------------------------------------------------------- the functions in use

  /** What the fixpoints ask of the clean-ups and the rule texts. */
  ghost predicate Usable(f: Cleanup, g: RuleText) {
    PolicyEdits.Idempotent(f) && PlainNames(f) && Reparses(f, g, JoinLines) && g.parse("") == Some([]) && KeyOrder(f)
  }

  /** The functions of the program, up to those that are parameters. */
  ghost predicate OfProgram(f: Cleanup, g: RuleText) {
    (exists network, sha :: f == Clean(network, sha, AtMost)) && exists accept, phase, severity :: g == RuleTexts(accept, phase, severity)
  }

  lemma {:induction false} InUse(f: Cleanup, g: RuleText)
    requires OfProgram(f, g)
    ensures Usable(f, g) && f.trim == TrimSpace
  {
    var network, sha :| f == Clean(network, sha, AtMost);
    var accept, phase, severity :| g == RuleTexts(accept, phase, severity);
    EmptyTextIsSafe(accept);
    CleanIsIdempotent(network, sha, AtMost);
    CleanKeepsNames(network, sha, AtMost);
    RuleTextsReparse(accept, phase, severity, network, sha, AtMost);
    AtMostOrders(network, sha);
  }

  // ---------------------------------------------------------------- a legacy bypass with a reason

  const NoTemplate := Template("v4.3.0", Usual, map[], [], [], [], [], [], [], [], "")

  const Reason := "x"

  const Maintenance := Exclusion("", Enterprise, EngineBypass, BeforeCrs, 0, "", "", 0, Reason, None, true, true, 0,
                                 [Condition(Address, IpMatch, "192.0.2.1", 0)])

  const OneBypass := Settings(Unset, None, Usual, [], [], [Maintenance], "")

  lemma {:induction false} MaintenanceBuilt(f: Cleanup)
    requires PlainNames(f) && f.trim(Reason) == Reason
    ensures var x := BuiltExclusions(f, [OwnDraft(Maintenance)]); |x| == 1 && Tag(x[0]) == 1 && x[0].reason == Reason
  {
    BuiltAt(f, [OwnDraft(Maintenance)], 0);
  }

  lemma {:induction false} MaintenanceLost(f: Cleanup, g: RuleText)
    requires Usable(f, g) && f.trim(Reason) == Reason && f.trim("") == ""
    ensures var c := Built(f, g, CoreKeys, ("policy", "revision"), NoTemplate, OneBypass, []);
            c.Some? && Built(f, g, CoreKeys, ("policy", "revision"), NoTemplate, Projected(JoinLines, c.value, OneBypass), []) != c
  {
    var c := Built(f, g, CoreKeys, ("policy", "revision"), NoTemplate, OneBypass, []).value;
    BuiltParts(f, g, CoreKeys, ("policy", "revision"), NoTemplate, OneBypass, [], c);
    assert SystemDrafts(NoTemplate) + EnterpriseDrafts(OneBypass) == [OwnDraft(Maintenance)];
    MaintenanceBuilt(f);
    ReasonIsLost(f, g, JoinLines, CoreKeys, ("policy", "revision"), NoTemplate, OneBypass, [], c, 0);
  }

  /** Projecting the built configuration to settings and building it again drops the reason. */
  lemma {:induction false} MaintenanceReasonIsLost(f: Cleanup, g: RuleText)
    requires OfProgram(f, g)
    ensures var c := Built(f, g, CoreKeys, ("policy", "revision"), NoTemplate, OneBypass, []);
            c.Some? && Built(f, g, CoreKeys, ("policy", "revision"), NoTemplate, Projected(JoinLines, c.value, OneBypass), []) != c
  {
    InUse(f, g);
    MaintenanceLost(f, g);
  }

  // ---------------------------------------------------------------- a setup key with a blank

  const SamplingKey := "sampling_percentage"

  const BlankKey := " " + SamplingKey

  const BlankTemplate := NoTemplate.(setup := map[BlankKey := "50"])

  lemma {:induction false} BlankLost(f: Cleanup, g: RuleText, core: Scalars -> map<string, string>, others: seq<string>)
    requires Usable(f, g) && CoreFixed(core, CoreKeys) && BlankKey !in CoreKeys && f.trim(BlankKey) in CoreKeys
    ensures var c := Built(f, g, CoreKeys, ("policy", ""), BlankTemplate, BaseSettings(BlankTemplate), [BlankKey]);
            c.Some? && var r := Restored(core, JoinLines, c.value, BlankTemplate);
            (forall i :: 0 <= i < |others| ==> others[i] in r.setup) && Enumerates(others, r.setup) ==>
              Built(f, g, CoreKeys, ("policy", ""), r, BaseSettings(r), others) != c
  {
    var c := Built(f, g, CoreKeys, ("policy", ""), BlankTemplate, BaseSettings(BlankTemplate), [BlankKey]).value;
    BaseParts(f, g, CoreKeys, "policy", BlankTemplate, [BlankKey], c);
    assert multiset([BlankKey]) == multiset(BlankTemplate.setup.Keys);
    var r := Restored(core, JoinLines, c, BlankTemplate);
    if (forall i :: 0 <= i < |others| ==> others[i] in r.setup) && Enumerates(others, r.setup) {
      assert BlankKey in BlankTemplate.setup;
      OneItem(f, c.setup);
      TemplateFixpoint(f, g, core, JoinLines, CoreKeys, "policy", BlankTemplate, [BlankKey], c, r, others);
    }
  }

  lemma {:induction false} OneItem(f: Cleanup, items: seq<Setup>)
    requires items == BuiltSetup(f, CoreKeys, BlankTemplate, [BlankKey])
    ensures UniqueKeys(items)
  {
    var keep := (key: string) => key !in CoreKeys;
    FilterKeeps(keep, [BlankKey]);
    SameItems(CoreKeys, BlankTemplate, [BlankKey], ItemIn(BlankTemplate.setup), keep);
  }

  /** The item under the trimmed key is built once and not again, in whatever order the restored map is gone through. */
  lemma {:induction false} BlankKeyIsLost(f: Cleanup, g: RuleText, others: seq<string>)
    requires OfProgram(f, g)
    ensures var c := Built(f, g, CoreKeys, ("policy", ""), BlankTemplate, BaseSettings(BlankTemplate), [BlankKey]);
            c.Some? && var r := Restored(CoreMap, JoinLines, c.value, BlankTemplate);
            (forall i :: 0 <= i < |others| ==> others[i] in r.setup) && Enumerates(others, r.setup) ==>
              Built(f, g, CoreKeys, ("policy", ""), r, BaseSettings(r), others) != c
  {
    InUse(f, g);
    CoreMapFixed();
    NotCore(BlankKey, ' ');
    TrimIndented(SamplingKey);
    BlankLost(f, g, CoreMap, others);
  }
}
