/** Operator edits and expiry jobs on an effective configuration
    (internal/manager/policy_operator_handlers.go, internal/manager/policy_mutation.go). */
module PolicyEdits {
  import opened Prelude
  import opened Text
  import opened Sorting
  import opened Policy
  import opened PolicyComposition
  import opened PolicyValidation
  import opened PolicyLists
  import opened RuleIds

  // ---------------------------------------------------------------- lists of a configuration

  function PlaceExclusion(x: Exclusion, i: int): Exclusion { x.(order := i) }

  function PlaceRule(x: CustomRule, i: int): CustomRule { x.(order := i) }

  function PlaceIp(x: IpRule, i: int): IpRule { x.(order := i) }

  /** Trimming and squashing twice do what they do once. */
  ghost predicate Idempotent(f: Cleanup) {
    (forall x :: f.trim(f.trim(x)) == f.trim(x)) && (forall x :: f.squash(f.squash(x)) == f.squash(x))
  }

  lemma CleanAgain(f: Cleanup, x: Exclusion)
    requires Idempotent(f)
    ensures CleanExclusion(f)(CleanExclusion(f)(x)) == CleanExclusion(f)(x)
  {
    var once := CleanConditions(f, x.conditions);
    var twice := CleanConditions(f, once);
    forall i | 0 <= i < |once| ensures twice[i] == once[i] {
      var c := x.conditions[i];
      assert f.trim(f.trim(c.field)) == f.trim(c.field) && f.trim(f.trim(c.operator)) == f.trim(c.operator);
      assert f.trim(f.trim(c.value)) == f.trim(c.value);
    }
    assert twice == once;
  }

  /** System exclusions are those of a layer, in front and in order. */
  ghost predicate ExclusionsKept(f: Cleanup, layer: seq<Exclusion>, s: seq<Exclusion>) {
    InOrder(PlaceExclusion, s) && Front(ExclusionIn(System), s) && Map(BlankExclusion, Filter(ExclusionIn(System), s)) == layer
  }

  ghost predicate RulesKept(f: Cleanup, layer: seq<CustomRule>, s: seq<CustomRule>) {
    InOrder(PlaceRule, s) && Front(RuleIn(System), s) && Map(BlankRule, Filter(RuleIn(System), s)) == layer
  }

  /** A layer without ids whose items are clean. */
  ghost predicate CleanLayer(f: Cleanup, layer: SystemLayer) {
    && (forall i :: 0 <= i < |layer.exclusions| ==> CleanExclusion(f)(layer.exclusions[i]) == layer.exclusions[i])
    && (forall i :: 0 <= i < |layer.rules| ==> CleanRule(f)(layer.rules[i]) == layer.rules[i])
    && layer.ips == []
  }

  lemma ExclusionNumbers()
    ensures Numbers(PlaceExclusion, ExclusionIn(System)) && Numbers(PlaceRule, RuleIn(System))
  {
  }

  lemma CleaningIsHarmless(f: Cleanup)
    ensures Harmless(PlaceExclusion, ExclusionIn(System), CleanExclusion(f), BlankExclusion)
    ensures Harmless(PlaceRule, RuleIn(System), CleanRule(f), BlankRule)
  {
  }

  /** Normalising keeps a kept list: it moves nothing, and system items are clean already. */
  lemma NormalKeepsExclusions(f: Cleanup, layer: seq<Exclusion>, s: seq<Exclusion>)
    requires ExclusionsKept(f, layer, s) && forall i :: 0 <= i < |layer| ==> CleanExclusion(f)(layer[i]) == layer[i]
    ensures Sort(ExclusionOrder, Map(CleanExclusion(f), s)) == Map(CleanExclusion(f), s)
    ensures ExclusionsKept(f, layer, Map(BlankExclusion, Map(CleanExclusion(f), s)))
  {
    forall i | 0 <= i < |s| ensures s[i].order == i { assert PlaceExclusion(s[i], i) == s[i]; }
    SortOfSorted(ExclusionOrder, Map(CleanExclusion(f), s));
    CleaningIsHarmless(f);
    CleanKeeps(PlaceExclusion, ExclusionIn(System), CleanExclusion(f), BlankExclusion, layer, s);
  }

  lemma NormalKeepsRules(f: Cleanup, layer: seq<CustomRule>, s: seq<CustomRule>)
    requires RulesKept(f, layer, s) && forall i :: 0 <= i < |layer| ==> CleanRule(f)(layer[i]) == layer[i]
    ensures Sort(RuleOrder, Map(CleanRule(f), s)) == Map(CleanRule(f), s)
    ensures RulesKept(f, layer, Map(BlankRule, Map(CleanRule(f), s)))
  {
    forall i | 0 <= i < |s| ensures s[i].order == i { assert PlaceRule(s[i], i) == s[i]; }
    SortOfSorted(RuleOrder, Map(CleanRule(f), s));
    CleaningIsHarmless(f);
    CleanKeeps(PlaceRule, RuleIn(System), CleanRule(f), BlankRule, layer, s);
  }

  /** New item ids do not matter. */
  lemma RelabelKeepsExclusions(f: Cleanup, layer: seq<Exclusion>, s: seq<Exclusion>, t: seq<Exclusion>)
    requires ExclusionsKept(f, layer, s) && Map(BlankExclusion, t) == Map(BlankExclusion, s)
    ensures ExclusionsKept(f, layer, t)
  {
    assert |t| == |s|;
    forall i | 0 <= i < |t| ensures BlankExclusion(t[i]) == BlankExclusion(s[i]) {
      assert Map(BlankExclusion, t)[i] == Map(BlankExclusion, s)[i];
    }
    forall i | 0 <= i < |t| ensures PlaceExclusion(t[i], i) == t[i] { assert PlaceExclusion(s[i], i) == s[i]; }
    FilterMap(BlankExclusion, ExclusionIn(System), s);
    FilterMap(BlankExclusion, ExclusionIn(System), t);
  }

  lemma RelabelKeepsRules(f: Cleanup, layer: seq<CustomRule>, s: seq<CustomRule>, t: seq<CustomRule>)
    requires RulesKept(f, layer, s) && Map(BlankRule, t) == Map(BlankRule, s)
    ensures RulesKept(f, layer, t)
  {
    assert |t| == |s|;
    forall i | 0 <= i < |t| ensures BlankRule(t[i]) == BlankRule(s[i]) {
      assert Map(BlankRule, t)[i] == Map(BlankRule, s)[i];
    }
    forall i | 0 <= i < |t| ensures PlaceRule(t[i], i) == t[i] { assert PlaceRule(s[i], i) == s[i]; }
    FilterMap(BlankRule, RuleIn(System), s);
    FilterMap(BlankRule, RuleIn(System), t);
  }

  // ---------------------------------------------------------------- least free generated id

  function UsedIds(c: Configuration): set<int> {
    (set i | 0 <= i < |c.exclusions| && c.exclusions[i].generatedId != 0 :: c.exclusions[i].generatedId)
    + (set i | 0 <= i < |c.ipRules| && c.ipRules[i].generatedId != 0 :: c.ipRules[i].generatedId)
  }

  method NextGeneratedPolicyRuleId(c: Configuration) returns (id: Option<nat>)
    ensures id == LeastFree(UsedIds(c), GeneratedMin, GeneratedMax)
  {
    var used: set<int> := {};
    for i := 0 to |c.exclusions|
      invariant used == set j | 0 <= j < i && c.exclusions[j].generatedId != 0 :: c.exclusions[j].generatedId
    {
      if c.exclusions[i].generatedId != 0 { used := used + {c.exclusions[i].generatedId}; }
    }
    ghost var reserved := used;
    for i := 0 to |c.ipRules|
      invariant used == reserved + set j | 0 <= j < i && c.ipRules[j].generatedId != 0 :: c.ipRules[j].generatedId
    {
      if c.ipRules[i].generatedId != 0 { used := used + {c.ipRules[i].generatedId}; }
    }
    var next: nat := GeneratedMin;
    while next <= GeneratedMax
      invariant LeastFree(used, next, GeneratedMax) == LeastFree(used, GeneratedMin, GeneratedMax)
      decreases GeneratedMax + 1 - next
    {
      if next !in used { return Some(next); }
      next := next + 1;
    }
    return None;
  }

  // ---------------------------------------------------------------- edits

  /** What operators and the expiry jobs do; `text` prints a user rule under its id. */
  datatype Edit =
    | AddException(exclusion: Exclusion)
    | RemoveException(id: string)
    | ExpireExceptions
    | AddIp(ip: IpRule)
    | RemoveIp(id: string)
    | ExpireIps
    | AddRule(rule: CustomRule, text: int -> string)
    | RemoveRule(id: string)

  predicate Expired(at: Option<int>, now: int) { at.Some? && at.value <= now }

  function KeepException(id: string): Exclusion -> bool { (x: Exclusion) => !(x.id == id && x.scope == Enterprise) }

  function KeepUnexpired(now: int): Exclusion -> bool { (x: Exclusion) => !(x.scope == Enterprise && x.enabled && Expired(x.expiresAt, now)) }

  function KeepIp(id: string): IpRule -> bool { (x: IpRule) => !(x.id == id && x.scope == Enterprise) }

  function KeepActive(now: int): IpRule -> bool { (x: IpRule) => !Expired(x.expiresAt, now) }

  function KeepRule(id: string): CustomRule -> bool { (x: CustomRule) => !(x.id == id && x.scope == Enterprise) }

  function WithExclusion(c: Configuration, x: Exclusion, id: int): Configuration {
    c.(exclusions := c.exclusions + [PlaceExclusion(x.(scope := Enterprise, generatedId := id), |c.exclusions|)])
  }

  function WithIp(c: Configuration, x: IpRule, id: int): Configuration {
    c.(ipRules := c.ipRules + [PlaceIp(x.(scope := Enterprise, generatedId := id), |c.ipRules|)])
  }

  function OwnRule(x: CustomRule, text: string, id: int): CustomRule {
    x.(scope := Enterprise, ruleId := id, text := text, legacyRange := false)
  }

  function WithRule(c: Configuration, x: CustomRule, text: string, id: int): Configuration {
    c.(customRules := c.customRules + [PlaceRule(OwnRule(x, text, id), |c.customRules|)])
  }

  function TextOfRule(x: CustomRule): string { x.text }

  function JoinedTexts(s: seq<CustomRule>): string { Join(Map(TextOfRule, s), '\n') }

  /** The least id that no rule text shows. */
  function GivenId(find: IdFinder, c: Configuration): Option<nat> {
    LeastFree(find.all(JoinedTexts(c.customRules)), EnterpriseMin, EnterpriseMax)
  }

  /** The rule is printed under the given id, and recorded under the first id that its text shows. */
  function Added(find: IdFinder, c: Configuration, x: CustomRule, text: int -> string): Option<Configuration> {
    match GivenId(find, c)
    case None => None
    case Some(id) => match find.first(text(id)) case None => None case Some(shown) => Some(WithRule(c, x, text(id), shown))
  }

  /** An added rule, when its text shows the given id first, or another. */
  lemma {:induction false} AddedParts(find: IdFinder, c: Configuration, x: CustomRule, text: int -> string, shown: Option<int>)
    requires GivenId(find, c).Some?
    requires find.first(text(GivenId(find, c).value)) == if shown.Some? then shown else Some(GivenId(find, c).value)
    ensures var e := Added(find, c, x, text);
            e.Some? && |e.value.customRules| == |c.customRules| + 1
            && e.value.customRules[|c.customRules|].ruleId == (if shown.Some? then shown.value else GivenId(find, c).value)
            && e.value.customRules[|c.customRules|].text == text(GivenId(find, c).value)
  {
  }

  /** The numbered rest of a list, unless nothing was removed from it. */
  function Removed<T>(place: (T, int) -> T, keep: T -> bool, s: seq<T>): Option<seq<T>> {
    if |Filter(keep, s)| == |s| then None else Some(Renumber(place, Filter(keep, s)))
  }

  /** The edited configuration, or nothing when there is nothing to remove or ids have run out. */
  function Edited(find: IdFinder, c: Configuration, edit: Edit, now: int): Option<Configuration> {
    match edit
    case AddException(x) =>
      if x.stage == AfterCrs then Some(WithExclusion(c, x, 0))
      else (match LeastFree(UsedIds(c), GeneratedMin, GeneratedMax) case None => None case Some(id) => Some(WithExclusion(c, x, id)))
    case RemoveException(id) => Exclusions(c, Removed(PlaceExclusion, KeepException(id), c.exclusions))
    case ExpireExceptions => Exclusions(c, Removed(PlaceExclusion, KeepUnexpired(now), c.exclusions))
    case AddIp(x) => (match LeastFree(UsedIds(c), GeneratedMin, GeneratedMax) case None => None case Some(id) => Some(WithIp(c, x, id)))
    case RemoveIp(id) => IpRules(c, Removed(PlaceIp, KeepIp(id), c.ipRules))
    case ExpireIps => IpRules(c, Removed(PlaceIp, KeepActive(now), c.ipRules))
    case AddRule(x, text) => Added(find, c, x, text)
    case RemoveRule(id) => CustomRules(c, Removed(PlaceRule, KeepRule(id), c.customRules))
  }

  function Exclusions(c: Configuration, s: Option<seq<Exclusion>>): Option<Configuration> {
    match s case None => None case Some(list) => Some(c.(exclusions := list))
  }

  function IpRules(c: Configuration, s: Option<seq<IpRule>>): Option<Configuration> {
    match s case None => None case Some(list) => Some(c.(ipRules := list))
  }

  function CustomRules(c: Configuration, s: Option<seq<CustomRule>>): Option<Configuration> {
    match s case None => None case Some(list) => Some(c.(customRules := list))
  }

  method TryRemove<T>(place: (T, int) -> T, keep: T -> bool, s: seq<T>) returns (r: Option<seq<T>>)
    ensures r == Removed(place, keep, s)
  {
    var next := Remove(place, keep, s);
    return if |next| == |s| then None else Some(next);
  }

  // ---------------------------------------------------------------- what an edit does, item by item

  /** `at` lists the places below `n` that are not `gone`, in order. */
  ghost predicate Staying(n: nat, gone: set<int>, at: seq<int>) {
    && (forall j :: 0 <= j < |at| ==> 0 <= at[j] < n && at[j] !in gone)
    && (forall i, j :: 0 <= i < j < |at| ==> at[i] < at[j])
    && forall i :: 0 <= i < n && i !in gone ==> i in at
  }

  ghost predicate ExclusionsLeft(was: seq<Exclusion>, gone: set<int>, at: seq<int>, left: seq<Exclusion>) {
    && Staying(|was|, gone, at) && |left| == |at|
    && forall j :: 0 <= j < |at| ==> left[j] == was[at[j]].(order := j)
  }

  ghost predicate IpsLeft(was: seq<IpRule>, gone: set<int>, at: seq<int>, left: seq<IpRule>) {
    && Staying(|was|, gone, at) && |left| == |at|
    && forall j :: 0 <= j < |at| ==> left[j] == was[at[j]].(order := j)
  }

  ghost predicate RulesLeft(was: seq<CustomRule>, gone: set<int>, at: seq<int>, left: seq<CustomRule>) {
    && Staying(|was|, gone, at) && |left| == |at|
    && forall j :: 0 <= j < |at| ==> left[j] == was[at[j]].(order := j)
  }

  /** Nothing happens when nothing is to go; otherwise only the places in `gone` are missing, the rest renumbered. */
  ghost predicate LosesExclusions(c: Configuration, gone: set<int>, r: Option<Configuration>) {
    && (r.None? <==> gone == {})
    && (r.Some? ==> r.value == c.(exclusions := r.value.exclusions)
                    && exists at :: ExclusionsLeft(c.exclusions, gone, at, r.value.exclusions))
  }

  ghost predicate LosesIps(c: Configuration, gone: set<int>, r: Option<Configuration>) {
    && (r.None? <==> gone == {})
    && (r.Some? ==> r.value == c.(ipRules := r.value.ipRules) && exists at :: IpsLeft(c.ipRules, gone, at, r.value.ipRules))
  }

  ghost predicate LosesRules(c: Configuration, gone: set<int>, r: Option<Configuration>) {
    && (r.None? <==> gone == {})
    && (r.Some? ==> r.value == c.(customRules := r.value.customRules) && exists at :: RulesLeft(c.customRules, gone, at, r.value.customRules))
  }

  /** No exclusion and no IP rule has the id. */
  ghost predicate Unreserved(c: Configuration, id: int) {
    && (forall i :: 0 <= i < |c.exclusions| ==> c.exclusions[i].generatedId != id)
    && (forall i :: 0 <= i < |c.ipRules| ==> c.ipRules[i].generatedId != id)
  }

  /** `id` is the least unreserved one of its range. */
  ghost predicate LeastUnreserved(c: Configuration, id: int) {
    && GeneratedMin <= id <= GeneratedMax && Unreserved(c, id)
    && forall i :: GeneratedMin <= i < id ==> !Unreserved(c, i)
  }

  ghost predicate AllReserved(c: Configuration) {
    forall i :: GeneratedMin <= i <= GeneratedMax ==> !Unreserved(c, i)
  }

  /** One enterprise exclusion more, last in the list; one that loads after the CRS has no rule id. */
  ghost predicate GainsExclusion(c: Configuration, x: Exclusion, r: Option<Configuration>) {
    && (r.None? <==> x.stage == BeforeCrs && AllReserved(c))
    && (r.Some? ==>
          && |r.value.exclusions| == |c.exclusions| + 1
          && var last := r.value.exclusions[|c.exclusions|];
             && r.value == c.(exclusions := c.exclusions + [last])
             && last == x.(scope := Enterprise, generatedId := last.generatedId, order := |c.exclusions|)
             && (x.stage == AfterCrs ==> last.generatedId == 0)
             && (x.stage == BeforeCrs ==> LeastUnreserved(c, last.generatedId)))
  }

  ghost predicate GainsIp(c: Configuration, x: IpRule, r: Option<Configuration>) {
    && (r.None? <==> AllReserved(c))
    && (r.Some? ==>
          && |r.value.ipRules| == |c.ipRules| + 1
          && var last := r.value.ipRules[|c.ipRules|];
             && r.value == c.(ipRules := c.ipRules + [last])
             && last == x.(scope := Enterprise, generatedId := last.generatedId, order := |c.ipRules|)
             && LeastUnreserved(c, last.generatedId))
  }

  /** `id` is the least of the enterprise range that the rule texts do not show. */
  ghost predicate LeastUnshown(find: IdFinder, c: Configuration, id: int) {
    && EnterpriseMin <= id <= EnterpriseMax && id !in find.all(JoinedTexts(c.customRules))
    && forall i :: EnterpriseMin <= i < id ==> i in find.all(JoinedTexts(c.customRules))
  }

  /** One enterprise rule more, last in the list, printed under the least unshown id and recorded under the id it shows. */
  ghost predicate GainsRule(find: IdFinder, c: Configuration, x: CustomRule, text: int -> string, r: Option<Configuration>) {
    && (r.None? ==> forall id :: LeastUnshown(find, c, id) ==> find.first(text(id)).None?)
    && (r.Some? ==>
          && |r.value.customRules| == |c.customRules| + 1
          && var last := r.value.customRules[|c.customRules|];
             && r.value == c.(customRules := c.customRules + [last])
             && last == x.(scope := Enterprise, legacyRange := false, ruleId := last.ruleId, text := last.text, order := |c.customRules|)
             && find.first(last.text) == Some(last.ruleId)
             && exists id :: LeastUnshown(find, c, id) && last.text == text(id))
  }

  /** Where the enterprise exclusions with an id are. */
  ghost function NamedExclusions(c: Configuration, id: string): set<int> {
    set i | 0 <= i < |c.exclusions| && c.exclusions[i].id == id && c.exclusions[i].scope == Enterprise
  }

  /** Where the enabled enterprise exclusions are whose time is over. */
  ghost function ExpiredExclusions(c: Configuration, now: int): set<int> {
    set i | 0 <= i < |c.exclusions| && c.exclusions[i].scope == Enterprise && c.exclusions[i].enabled
            && c.exclusions[i].expiresAt.Some? && c.exclusions[i].expiresAt.value <= now
  }

  ghost function NamedIps(c: Configuration, id: string): set<int> {
    set i | 0 <= i < |c.ipRules| && c.ipRules[i].id == id && c.ipRules[i].scope == Enterprise
  }

  /** IP rules expire whatever their layer, enabled or not. */
  ghost function ExpiredIps(c: Configuration, now: int): set<int> {
    set i | 0 <= i < |c.ipRules| && c.ipRules[i].expiresAt.Some? && c.ipRules[i].expiresAt.value <= now
  }

  ghost function NamedRules(c: Configuration, id: string): set<int> {
    set i | 0 <= i < |c.customRules| && c.customRules[i].id == id && c.customRules[i].scope == Enterprise
  }

  /** Every edit in terms of the fields it looks at. */
  ghost predicate DoesEdit(find: IdFinder, c: Configuration, edit: Edit, now: int, r: Option<Configuration>) {
    match edit
    case AddException(x) => GainsExclusion(c, x, r)
    case AddIp(x) => GainsIp(c, x, r)
    case AddRule(x, text) => GainsRule(find, c, x, text, r)
    case RemoveException(id) => LosesExclusions(c, NamedExclusions(c, id), r)
    case ExpireExceptions => LosesExclusions(c, ExpiredExclusions(c, now), r)
    case RemoveIp(id) => LosesIps(c, NamedIps(c, id), r)
    case ExpireIps => LosesIps(c, ExpiredIps(c, now), r)
    case RemoveRule(id) => LosesRules(c, NamedRules(c, id), r)
  }

  lemma {:induction false} OneMorePlace(n: nat, gone: set<int>, at: seq<int>)
    requires Staying(n, gone, at)
    ensures Staying(n + 1, gone, if n in gone then at else at + [n])
  {
    forall i | 0 <= i < n + 1 && i !in gone ensures i in if n in gone then at else at + [n] {
      if i < n { assert i in at; }
    }
  }

  ghost predicate Picked<T>(s: seq<T>, at: seq<int>, picked: seq<T>) {
    |at| == |picked| && forall j :: 0 <= j < |at| ==> 0 <= at[j] < |s| && picked[j] == s[at[j]]
  }

  lemma OneMorePicked<T>(s: seq<T>, at: seq<int>, picked: seq<T>, x: T)
    requires Picked(s, at, picked)
    ensures Picked(s + [x], at, picked) && Picked(s + [x], at + [|s|], picked + [x])
  {
  }

  lemma {:induction false} OneMoreItem<T>(s: seq<T>, gone: set<int>, at: seq<int>, kept: seq<T>, x: T) returns (more: seq<int>)
    requires Staying(|s|, gone, at) && Picked(s, at, kept)
    ensures Staying(|s + [x]|, gone, more) && Picked(s + [x], more, if |s| in gone then kept else kept + [x])
  {
    OneMorePlace(|s|, gone, at);
    OneMorePicked(s, at, kept, x);
    more := if |s| in gone then at else at + [|s|];
  }

  /** Where the items that a filter keeps stood. */
  lemma {:induction false} FilterPlaces<T>(keep: T -> bool, s: seq<T>, gone: set<int>) returns (at: seq<int>)
    requires forall i :: 0 <= i < |s| ==> (i in gone <==> !keep(s[i]))
    ensures Staying(|s|, gone, at) && Picked(s, at, Filter(keep, s))
  {
    if s == [] {
      at := [];
    } else {
      var n, last := |s| - 1, s[|s| - 1];
      var places := FilterPlaces(keep, s[..n], gone);
      at := OneMoreItem(s[..n], gone, places, Filter(keep, s[..n]), last);
      assert s[..n] + [last] == s;
    }
  }

  /** A filter is as long as the list exactly when nothing goes. */
  lemma {:induction false} FilterLoses<T>(keep: T -> bool, s: seq<T>, gone: set<int>)
    requires forall i :: i in gone <==> 0 <= i < |s| && !keep(s[i])
    ensures |Filter(keep, s)| == |s| <==> gone == {}
  {
    if i :| i in gone {
      FilterAppend(keep, s[..i], s[i..]);
      FilterAppend(keep, [s[i]], s[i + 1..]);
      FilterOne(keep, s[i]);
      assert s == s[..i] + s[i..] && s[i..] == [s[i]] + s[i + 1..];
      FilterKeeps(keep, s[..i]);
      FilterKeeps(keep, s[i + 1..]);
    } else {
      assert forall i :: 0 <= i < |s| ==> i !in gone;
      FilterAll(keep, s);
    }
  }

  lemma {:induction false} ExclusionsRemoved(c: Configuration, keep: Exclusion -> bool, gone: set<int>)
    requires forall i :: i in gone <==> 0 <= i < |c.exclusions| && !keep(c.exclusions[i])
    ensures LosesExclusions(c, gone, Exclusions(c, Removed(PlaceExclusion, keep, c.exclusions)))
  {
    FilterLoses(keep, c.exclusions, gone);
    var at := FilterPlaces(keep, c.exclusions, gone);
    if gone != {} {
      assert ExclusionsLeft(c.exclusions, gone, at, Renumber(PlaceExclusion, Filter(keep, c.exclusions)));
    }
  }

  lemma {:induction false} IpsRemoved(c: Configuration, keep: IpRule -> bool, gone: set<int>)
    requires forall i :: i in gone <==> 0 <= i < |c.ipRules| && !keep(c.ipRules[i])
    ensures LosesIps(c, gone, IpRules(c, Removed(PlaceIp, keep, c.ipRules)))
  {
    FilterLoses(keep, c.ipRules, gone);
    var at := FilterPlaces(keep, c.ipRules, gone);
    if gone != {} {
      assert IpsLeft(c.ipRules, gone, at, Renumber(PlaceIp, Filter(keep, c.ipRules)));
    }
  }

  lemma {:induction false} RulesRemoved(c: Configuration, keep: CustomRule -> bool, gone: set<int>)
    requires forall i :: i in gone <==> 0 <= i < |c.customRules| && !keep(c.customRules[i])
    ensures LosesRules(c, gone, CustomRules(c, Removed(PlaceRule, keep, c.customRules)))
  {
    FilterLoses(keep, c.customRules, gone);
    var at := FilterPlaces(keep, c.customRules, gone);
    if gone != {} {
      assert RulesLeft(c.customRules, gone, at, Renumber(PlaceRule, Filter(keep, c.customRules)));
    }
  }

  lemma {:induction false} LeastFreeIsUnreserved(c: Configuration)
    ensures match LeastFree(UsedIds(c), GeneratedMin, GeneratedMax)
            case Some(id) => LeastUnreserved(c, id)
            case None => AllReserved(c)
    ensures AllReserved(c) ==> LeastFree(UsedIds(c), GeneratedMin, GeneratedMax).None?
  {
    LeastFreeIs(UsedIds(c), GeneratedMin, GeneratedMax);
    forall id | id != 0 ensures id in UsedIds(c) <==> !Unreserved(c, id) {
    }
  }

  lemma {:induction false} RuleAdded(find: IdFinder, c: Configuration, x: CustomRule, text: int -> string)
    ensures GainsRule(find, c, x, text, Added(find, c, x, text))
  {
    LeastFreeIs(find.all(JoinedTexts(c.customRules)), EnterpriseMin, EnterpriseMax);
    var given := GivenId(find, c);
    if given.Some? { assert LeastUnshown(find, c, given.value); }
  }

  /** The edited configuration is that one. */
  lemma {:induction false} EditedDoesEdit(find: IdFinder, c: Configuration, edit: Edit, now: int)
    ensures DoesEdit(find, c, edit, now, Edited(find, c, edit, now))
  {
    match edit
    case AddException(x) => LeastFreeIsUnreserved(c);
    case AddIp(x) => LeastFreeIsUnreserved(c);
    case AddRule(x, text) => RuleAdded(find, c, x, text);
    case RemoveException(id) => ExclusionsRemoved(c, KeepException(id), NamedExclusions(c, id));
    case ExpireExceptions => ExclusionsRemoved(c, KeepUnexpired(now), ExpiredExclusions(c, now));
    case RemoveIp(id) => IpsRemoved(c, KeepIp(id), NamedIps(c, id));
    case ExpireIps => IpsRemoved(c, KeepActive(now), ExpiredIps(c, now));
    case RemoveRule(id) => RulesRemoved(c, KeepRule(id), NamedRules(c, id));
  }

  /** The edits as the handlers and jobs make them. */
  method EditConfiguration(find: IdFinder, c: Configuration, edit: Edit, now: int) returns (r: Option<Configuration>)
    ensures r == Edited(find, c, edit, now)
    ensures DoesEdit(find, c, edit, now, r)
  {
    EditedDoesEdit(find, c, edit, now);
    match edit
    case AddException(x) =>
      if x.stage == AfterCrs { return Some(WithExclusion(c, x, 0)); }
      var id := NextGeneratedPolicyRuleId(c);
      return if id.None? then None else Some(WithExclusion(c, x, id.value));
    case RemoveException(id) =>
      var next := TryRemove(PlaceExclusion, KeepException(id), c.exclusions);
      return Exclusions(c, next);
    case ExpireExceptions =>
      var next := TryRemove(PlaceExclusion, KeepUnexpired(now), c.exclusions);
      return Exclusions(c, next);
    case AddIp(x) =>
      var id := NextGeneratedPolicyRuleId(c);
      return if id.None? then None else Some(WithIp(c, x, id.value));
    case RemoveIp(id) =>
      var next := TryRemove(PlaceIp, KeepIp(id), c.ipRules);
      return IpRules(c, next);
    case ExpireIps =>
      var next := TryRemove(PlaceIp, KeepActive(now), c.ipRules);
      return IpRules(c, next);
    case AddRule(x, text) =>
      var id := GivenId(find, c);
      if id.None? { return None; }
      var shown := find.first(text(id.value));
      return if shown.None? then None else Some(WithRule(c, x, text(id.value), shown.value));
    case RemoveRule(id) =>
      var next := TryRemove(PlaceRule, KeepRule(id), c.customRules);
      return CustomRules(c, next);
  }

  /** prepareConfigurationRevision: expired IP rules are dropped without renumbering, then the digest is updated,
      which normalises and blanks item ids. */
  function Prepared(f: Cleanup, c: Configuration, now: int): Configuration {
    BlankIds(Normalize(f, c.(ipRules := Filter(KeepActive(now), c.ipRules))))
  }

  // ---------------------------------------------------------------- what every edit keeps

  /** Setup and scalars are in normal form, all IP rules are the enterprise's, and the system layer is in place. */
  ghost predicate Kept(f: Cleanup, base: Configuration, source: ScalarSource, c: Configuration) {
    var layer := SystemLayerOf(base);
    && CleanLayer(f, layer) && Filter(SetupIn(System), c.setup) == layer.setup
    && Sort(SetupOrder(f), Map(CleanSetup(f), c.setup)) == c.setup
    && CleanScalars(c.scalars) == c.scalars && c.namespace != 0
    && base.release == c.release && base.namespace == c.namespace && (source.Inherit? ==> base.scalars == c.scalars)
    && ExclusionsKept(f, layer.exclusions, c.exclusions) && RulesKept(f, layer.rules, c.customRules)
    && (forall i :: 0 <= i < |c.ipRules| ==> c.ipRules[i].scope == Enterprise)
  }

  /** A kept configuration composes with the base, its system items in front. */
  lemma KeptComposes(f: Cleanup, base: Configuration, source: ScalarSource, c: Configuration)
    requires Kept(f, base, source, c)
    ensures ValidComposition(base, c, source) && SystemFirst(c)
  {
    FilterNone(IpIn(System), c.ipRules);
    assert Map(BlankIp, Filter(IpIn(System), c.ipRules)) == [];
  }

  ghost predicate SameSettings(a: Configuration, b: Configuration) {
    a.release == b.release && a.namespace == b.namespace && a.scalars == b.scalars && a.setup == b.setup
  }

  lemma IpsStayOwn(keep: IpRule -> bool, s: seq<IpRule>)
    requires forall i :: 0 <= i < |s| ==> s[i].scope == Enterprise
    ensures forall i :: 0 <= i < |Filter(keep, s)| ==> Filter(keep, s)[i].scope == Enterprise
  {
    forall i | 0 <= i < |Filter(keep, s)| ensures Filter(keep, s)[i].scope == Enterprise { FilterMember(keep, s, i); }
  }

  lemma EditKeepsExclusions(f: Cleanup, layer: seq<Exclusion>, c: Configuration, find: IdFinder, edit: Edit, now: int)
    requires ExclusionsKept(f, layer, c.exclusions) && Edited(find, c, edit, now).Some?
    ensures ExclusionsKept(f, layer, Edited(find, c, edit, now).value.exclusions)
  {
    ExclusionNumbers();
    match edit
    case AddException(x) =>
      var id := if x.stage == AfterCrs then 0 else LeastFree(UsedIds(c), GeneratedMin, GeneratedMax).value;
      AppendKeeps(PlaceExclusion, ExclusionIn(System), c.exclusions, x.(scope := Enterprise, generatedId := id));
    case RemoveException(id) => RemoveKeeps(PlaceExclusion, ExclusionIn(System), KeepException(id), c.exclusions);
    case ExpireExceptions => RemoveKeeps(PlaceExclusion, ExclusionIn(System), KeepUnexpired(now), c.exclusions);
    case _ =>
  }

  lemma EditKeepsRules(f: Cleanup, layer: seq<CustomRule>, c: Configuration, find: IdFinder, edit: Edit, now: int)
    requires RulesKept(f, layer, c.customRules) && Edited(find, c, edit, now).Some?
    ensures RulesKept(f, layer, Edited(find, c, edit, now).value.customRules)
  {
    ExclusionNumbers();
    match edit
    case AddRule(x, text) =>
      var line := text(GivenId(find, c).value);
      AppendKeeps(PlaceRule, RuleIn(System), c.customRules, OwnRule(x, line, find.first(line).value));
    case RemoveRule(id) => RemoveKeeps(PlaceRule, RuleIn(System), KeepRule(id), c.customRules);
    case _ =>
  }

  lemma EditKeepsIps(c: Configuration, find: IdFinder, edit: Edit, now: int)
    requires (forall i :: 0 <= i < |c.ipRules| ==> c.ipRules[i].scope == Enterprise) && Edited(find, c, edit, now).Some?
    ensures var e := Edited(find, c, edit, now).value;
            SameSettings(e, c) && forall i :: 0 <= i < |e.ipRules| ==> e.ipRules[i].scope == Enterprise
  {
    match edit
    case RemoveIp(id) => IpsStayOwn(KeepIp(id), c.ipRules);
    case ExpireIps => IpsStayOwn(KeepActive(now), c.ipRules);
    case _ =>
  }

  lemma EditKeeps(f: Cleanup, base: Configuration, source: ScalarSource, c: Configuration, find: IdFinder, edit: Edit, now: int)
    requires Kept(f, base, source, c) && Edited(find, c, edit, now).Some?
    ensures Kept(f, base, source, Edited(find, c, edit, now).value)
  {
    EditKeepsExclusions(f, SystemLayerOf(base).exclusions, c, find, edit, now);
    EditKeepsRules(f, SystemLayerOf(base).rules, c, find, edit, now);
    EditKeepsIps(c, find, edit, now);
  }

  lemma SortedIpsStayOwn(f: Cleanup, s: seq<IpRule>)
    requires forall i :: 0 <= i < |s| ==> s[i].scope == Enterprise
    ensures var r := Map(BlankIp, Sort(IpOrder, Map(CleanIp(f), s))); forall i :: 0 <= i < |r| ==> r[i].scope == Enterprise
  {
    var clean := Map(CleanIp(f), s);
    SortKeeps(IpOrder, clean);
    forall i | 0 <= i < |Sort(IpOrder, clean)| ensures Sort(IpOrder, clean)[i].scope == Enterprise {
      assert Sort(IpOrder, clean)[i] in clean;
      var j :| 0 <= j < |clean| && clean[j] == Sort(IpOrder, clean)[i];
    }
  }

  lemma PreparedParts(f: Cleanup, c: Configuration, now: int, p: Configuration)
    requires p == Prepared(f, c, now)
    requires Sort(ExclusionOrder, Map(CleanExclusion(f), c.exclusions)) == Map(CleanExclusion(f), c.exclusions)
    requires Sort(RuleOrder, Map(CleanRule(f), c.customRules)) == Map(CleanRule(f), c.customRules)
    ensures p.exclusions == Map(BlankExclusion, Map(CleanExclusion(f), c.exclusions))
    ensures p.customRules == Map(BlankRule, Map(CleanRule(f), c.customRules))
    ensures p.ipRules == Map(BlankIp, Sort(IpOrder, Map(CleanIp(f), Filter(KeepActive(now), c.ipRules))))
    ensures p.setup == Sort(SetupOrder(f), Map(CleanSetup(f), c.setup)) && p.scalars == CleanScalars(c.scalars)
    ensures p.release == c.release && p.namespace == if c.namespace == 0 then 1 else c.namespace
  {
  }

  /** An IP rule of a prepared revision has not expired and is a cleaned one of before; no unexpired one is lost. */
  lemma {:induction false} PreparedIps(f: Cleanup, c: Configuration, now: int, x: IpRule)
    ensures var clean := x.(id := "", network := f.network(x.network), reason := f.trim(x.reason), createdBy := f.trim(x.createdBy));
            x in c.ipRules && (x.expiresAt.None? || now < x.expiresAt.value) ==> clean in Prepared(f, c, now).ipRules
    ensures x in Prepared(f, c, now).ipRules ==>
              && (x.expiresAt.None? || now < x.expiresAt.value)
              && exists y :: y in c.ipRules && BlankIp(CleanIp(f)(y)) == x
  {
    var active := Filter(KeepActive(now), c.ipRules);
    var clean := Map(CleanIp(f), active);
    var sorted := Sort(IpOrder, clean);
    SortElements(IpOrder, clean);
    if x in c.ipRules && KeepActive(now)(x) {
      FilterHas(KeepActive(now), c.ipRules, x);
      var i :| 0 <= i < |active| && active[i] == x;
      assert clean[i] == CleanIp(f)(x) && clean[i] in clean;
      InMultiset(sorted, clean, clean[i]);
      var j :| 0 <= j < |sorted| && sorted[j] == clean[i];
      assert Map(BlankIp, sorted)[j] == BlankIp(CleanIp(f)(x));
    }
    if x in Prepared(f, c, now).ipRules {
      assert Prepared(f, c, now).ipRules == Map(BlankIp, sorted);
      var j :| 0 <= j < |sorted| && Map(BlankIp, sorted)[j] == x;
      InMultiset(sorted, clean, sorted[j]);
      var i :| 0 <= i < |clean| && clean[i] == sorted[j];
      FilterMember(KeepActive(now), c.ipRules, i);
      assert BlankIp(CleanIp(f)(active[i])) == x;
    }
  }

  lemma {:induction false} FilterHas<T>(keep: T -> bool, s: seq<T>, x: T)
    requires x in s && keep(x)
    ensures x in Filter(keep, s)
  {
    if x != s[|s| - 1] {
      assert x in s[..|s| - 1];
      FilterHas(keep, s[..|s| - 1], x);
    }
  }

  lemma PreparedKeeps(f: Cleanup, base: Configuration, source: ScalarSource, c: Configuration, now: int, p: Configuration)
    requires Kept(f, base, source, c) && p == Prepared(f, c, now)
    ensures Kept(f, base, source, p)
  {
    var layer := SystemLayerOf(base);
    NormalKeepsExclusions(f, layer.exclusions, c.exclusions);
    NormalKeepsRules(f, layer.rules, c.customRules);
    PreparedParts(f, c, now, p);
    IpsStayOwn(KeepActive(now), c.ipRules);
    SortedIpsStayOwn(f, Filter(KeepActive(now), c.ipRules));
    KeptFrom(f, base, source, c, p, layer);
  }

  /** Same settings and kept lists are all there is. */
  lemma KeptFrom(f: Cleanup, base: Configuration, source: ScalarSource, c: Configuration, p: Configuration, layer: SystemLayer)
    requires Kept(f, base, source, c) && layer == SystemLayerOf(base) && SameSettings(p, c)
    requires ExclusionsKept(f, layer.exclusions, p.exclusions) && RulesKept(f, layer.rules, p.customRules)
    requires forall i :: 0 <= i < |p.ipRules| ==> p.ipRules[i].scope == Enterprise
    ensures Kept(f, base, source, p)
  {
  }

  /** Loading a stored configuration again may give its items other ids. */
  lemma LoadedKeeps(f: Cleanup, base: Configuration, source: ScalarSource, c: Configuration, loaded: Configuration)
    requires Kept(f, base, source, c) && BlankIds(loaded) == BlankIds(c)
    ensures Kept(f, base, source, loaded)
  {
    var layer := SystemLayerOf(base);
    RelabelKeepsExclusions(f, layer.exclusions, c.exclusions, loaded.exclusions);
    RelabelKeepsRules(f, layer.rules, c.customRules, loaded.customRules);
    IpScopes(c.ipRules, loaded.ipRules);
  }

  lemma IpScopes(s: seq<IpRule>, t: seq<IpRule>)
    requires Map(BlankIp, t) == Map(BlankIp, s) && forall i :: 0 <= i < |s| ==> s[i].scope == Enterprise
    ensures forall i :: 0 <= i < |t| ==> t[i].scope == Enterprise
  {
    assert |s| == |t|;
    forall i | 0 <= i < |t| ensures t[i].scope == Enterprise { assert Map(BlankIp, t)[i] == Map(BlankIp, s)[i]; }
  }

  // ---------------------------------------------------------------- runs

  /** One request: the configuration as loaded, the edit and the time. */
  datatype Request = Request(loaded: Configuration, edit: Edit, now: int)

  /** An accepted edit becomes the current configuration; anything else leaves it. */
  ghost function Next(f: Cleanup, k: Checks, find: IdFinder, c: Configuration, r: Request): Configuration {
    match Edited(find, r.loaded, r.edit, r.now)
    case None => c
    case Some(e) => if Valid(k, Prepared(f, e, r.now), r.now) then Prepared(f, e, r.now) else c
  }

  ghost function Run(f: Cleanup, k: Checks, find: IdFinder, c: Configuration, requests: seq<Request>): Configuration {
    if requests == [] then c
    else Next(f, k, find, Run(f, k, find, c, requests[..|requests| - 1]), requests[|requests| - 1])
  }

  /** Every request loads the current configuration. */
  ghost predicate LoadsCurrent(f: Cleanup, k: Checks, find: IdFinder, c: Configuration, requests: seq<Request>) {
    forall i: nat :: i < |requests| ==> BlankIds(requests[i].loaded) == BlankIds(Run(f, k, find, c, requests[..i]))
  }

  lemma NextKeeps(f: Cleanup, k: Checks, base: Configuration, source: ScalarSource, find: IdFinder, c: Configuration, r: Request)
    requires Kept(f, base, source, c) && BlankIds(r.loaded) == BlankIds(c)
    ensures Kept(f, base, source, Next(f, k, find, c, r))
  {
    LoadedKeeps(f, base, source, c, r.loaded);
    match Edited(find, r.loaded, r.edit, r.now)
    case None =>
    case Some(e) =>
      EditKeeps(f, base, source, r.loaded, find, r.edit, r.now);
      PreparedKeeps(f, base, source, e, r.now, Prepared(f, e, r.now));
  }

  lemma LoadsFront(f: Cleanup, k: Checks, find: IdFinder, c: Configuration, requests: seq<Request>)
    requires requests != [] && LoadsCurrent(f, k, find, c, requests)
    ensures LoadsCurrent(f, k, find, c, requests[..|requests| - 1])
    ensures BlankIds(requests[|requests| - 1].loaded) == BlankIds(Run(f, k, find, c, requests[..|requests| - 1]))
  {
    var front := requests[..|requests| - 1];
    forall i: nat | i < |front| ensures BlankIds(front[i].loaded) == BlankIds(Run(f, k, find, c, front[..i])) {
      assert front[..i] == requests[..i] && front[i] == requests[i];
    }
  }

  lemma {:induction false} RunKeeps(f: Cleanup, k: Checks, base: Configuration, source: ScalarSource,
                                    find: IdFinder, c: Configuration, requests: seq<Request>)
    requires Kept(f, base, source, c) && LoadsCurrent(f, k, find, c, requests)
    ensures Kept(f, base, source, Run(f, k, find, c, requests))
  {
    if requests != [] {
      var front, last := requests[..|requests| - 1], requests[|requests| - 1];
      LoadsFront(f, k, find, c, requests);
      RunKeeps(f, k, base, source, find, c, front);
      NextKeeps(f, k, base, source, find, Run(f, k, find, c, front), last);
    }
  }

  /** After any sequence of edits and expiries the configuration still composes with the base, system items first. */
  lemma {:induction false} EditsKeepTheSystemLayer(f: Cleanup, k: Checks, base: Configuration, source: ScalarSource,
                                                   find: IdFinder, c: Configuration, requests: seq<Request>)
    requires Kept(f, base, source, c) && LoadsCurrent(f, k, find, c, requests)
    ensures ValidComposition(base, Run(f, k, find, c, requests), source) && SystemFirst(Run(f, k, find, c, requests))
  {
    RunKeeps(f, k, base, source, find, c, requests);
    KeptComposes(f, base, source, Run(f, k, find, c, requests));
  }
}
