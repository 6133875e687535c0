/** Projecting a configuration back to settings and building it again
    (internal/manager/policy_configuration.go). */
module PolicyProjection {
  import opened Prelude
  import opened Sorting
  import opened Policy
  import opened PolicyComposition
  import opened PolicyValidation
  import opened PolicyBuild
  import opened PolicyLayers
  import opened PolicyLists
  import opened PolicyEdits

  // ---------------------------------------------------------------- drafts that build the same

  /** The exclusion a draft becomes at a place. */
  function Item(f: Cleanup, d: Draft, order: nat, id: int): Exclusion { BlankExclusion(CleanExclusion(f)(Place(d, order, id))) }

  /** Two drafts that give the same item wherever they are placed. */
  ghost predicate Same(f: Cleanup, a: Draft, b: Draft) {
    a.allocate == b.allocate && forall order, id :: Item(f, a, order, id) == Item(f, b, order, id)
  }

  ghost predicate AllSame(f: Cleanup, a: seq<Draft>, b: seq<Draft>) {
    |a| == |b| && forall i :: 0 <= i < |a| ==> Same(f, a[i], b[i])
  }

  lemma {:induction false} NeededSame(f: Cleanup, a: seq<Draft>, b: seq<Draft>)
    requires AllSame(f, a, b)
    ensures Needed(a) == Needed(b)
  {
    if a != [] {
      assert Same(f, a[|a| - 1], b[|b| - 1]);
      NeededSame(f, a[..|a| - 1], b[..|b| - 1]);
    }
  }

  lemma {:induction false} BuiltSame(f: Cleanup, a: seq<Draft>, b: seq<Draft>)
    requires AllSame(f, a, b)
    ensures BuiltExclusions(f, a) == BuiltExclusions(f, b)
  {
    forall i | 0 <= i < |a| ensures BuiltExclusions(f, a)[i] == BuiltExclusions(f, b)[i] {
      BuiltAt(f, a, i);
      BuiltAt(f, b, i);
      NeededSame(f, a[..i], b[..i]);
      assert Same(f, a[i], b[i]);
    }
  }

  lemma {:induction false} BuiltAt(f: Cleanup, drafts: seq<Draft>, i: nat)
    requires i < |drafts|
    ensures BuiltExclusions(f, drafts)[i] == Item(f, drafts[i], i, GeneratedMin + Needed(drafts[..i]))
  {
    PlacedAt(drafts, i);
  }

  lemma SameAppend(f: Cleanup, a: seq<Draft>, b: seq<Draft>, c: seq<Draft>, d: seq<Draft>)
    requires AllSame(f, a, b) && AllSame(f, c, d)
    ensures AllSame(f, a + c, b + d)
  {
    forall i | 0 <= i < |a + c| ensures Same(f, (a + c)[i], (b + d)[i]) {
      if i < |a| { assert Same(f, a[i], b[i]); } else { assert Same(f, c[i - |a|], d[i - |a|]); }
    }
  }

  lemma SameSelf(f: Cleanup, a: seq<Draft>)
    ensures AllSame(f, a, a)
  {
  }

  // ---------------------------------------------------------------- sorting exclusions by where they go

  predicate SingleLegacy(x: Exclusion) { x.kind == EngineBypass && x.legacy && |x.conditions| == 1 }

  predicate IsPath(x: Exclusion) { SingleLegacy(x) && x.conditions[0].field == Uri && x.conditions[0].operator == BeginsWith }

  predicate IsIp(x: Exclusion) { SingleLegacy(x) && !IsPath(x) && x.conditions[0].field == Address && x.conditions[0].operator == IpMatch }

  /** Where ApplyToSettings puts an exclusion: nowhere, with the addresses, with the paths, or with the exclusions. */
  function Tag(x: Exclusion): nat {
    if x.scope == System then 0 else if IsIp(x) then 1 else if IsPath(x) then 2 else 3
  }

  function Tagged<T>(tag: T -> nat, k: nat): T -> bool { (x: T) => tag(x) == k }

  function Flat<T>(parts: seq<seq<T>>): seq<T> {
    if parts == [] then [] else Flat(parts[..|parts| - 1]) + parts[|parts| - 1]
  }

  /** Wherever they are placed, these drafts become items with the tag k. */
  ghost predicate Each<D(!new), X>(item: (D, nat, int) -> X, tag: X -> nat, drafts: seq<D>, k: nat) {
    forall i, order, id :: 0 <= i < |drafts| ==> tag(item(drafts[i], order, id)) == k
  }

  lemma EachAt<D(!new), X>(item: (D, nat, int) -> X, tag: X -> nat, drafts: seq<D>, k: nat, i: nat, order: nat, id: int)
    requires Each(item, tag, drafts, k) && i < |drafts|
    ensures tag(item(drafts[i], order, id)) == k
  {
  }

  ghost predicate Tags<D(!new), X>(item: (D, nat, int) -> X, tag: X -> nat, parts: seq<seq<D>>) {
    forall k: nat :: k < |parts| ==> Each(item, tag, parts[k], k)
  }

  /** The items of a list of drafts, each with its index and some id. */
  ghost predicate Items<D, X>(item: (D, nat, int) -> X, drafts: seq<D>, ids: nat -> int, x: seq<X>) {
    |x| == |drafts| && forall j: nat :: j < |x| ==> x[j] == item(drafts[j], j, ids(j))
  }

  /** Where a part starts in the whole list. */
  function Offset<D>(parts: seq<seq<D>>, k: nat): nat
    requires k <= |parts|
  {
    |Flat(parts[..k])|
  }

  lemma ItemsFront<D(!new), X>(item: (D, nat, int) -> X, tag: X -> nat, parts: seq<seq<D>>, ids: nat -> int, x: seq<X>, n: nat)
    requires parts != [] && Items(item, Flat(parts), ids, x) && Tags(item, tag, parts) && n == |Flat(parts[..|parts| - 1])|
    ensures n <= |x| && Items(item, Flat(parts[..|parts| - 1]), ids, x[..n]) && Tags(item, tag, parts[..|parts| - 1])
    ensures forall j :: 0 <= j < |x[n..]| ==> tag(x[n..][j]) == |parts| - 1
  {
    var front, last := parts[..|parts| - 1], parts[|parts| - 1];
    assert forall j :: 0 <= j < n ==> Flat(parts)[j] == Flat(front)[j];
    forall j | 0 <= j < |x[n..]| ensures tag(x[n..][j]) == |parts| - 1 {
      var at, k: nat := n + j, |parts| - 1;
      assert Each(item, tag, parts[k], k);
      EachAt(item, tag, parts[k], k, j, at, ids(at));
      assert x[n..][j] == x[at] && Flat(parts)[at] == last[j];
      assert x[at] == item(last[j], at, ids(at));
    }
    forall k: nat | k < |front| ensures Each(item, tag, front[k], k) { assert Each(item, tag, parts[k], k); }
  }

  lemma FilterCut<T>(keep: T -> bool, x: seq<T>, n: nat)
    requires n <= |x|
    ensures Filter(keep, x) == Filter(keep, x[..n]) + Filter(keep, x[n..])
  {
    FilterAppend(keep, x[..n], x[n..]);
    assert x == x[..n] + x[n..];
  }

  lemma {:induction false} NoSegment<D(!new), X>(item: (D, nat, int) -> X, tag: X -> nat, parts: seq<seq<D>>, ids: nat -> int, x: seq<X>, k: nat)
    requires Items(item, Flat(parts), ids, x) && Tags(item, tag, parts) && k >= |parts|
    ensures Filter(Tagged(tag, k), x) == []
    decreases |parts|
  {
    if parts != [] {
      var n := |Flat(parts[..|parts| - 1])|;
      ItemsFront(item, tag, parts, ids, x, n);
      NoSegment(item, tag, parts[..|parts| - 1], ids, x[..n], k);
      FilterNone(Tagged(tag, k), x[n..]);
      FilterCut(Tagged(tag, k), x, n);
    }
  }

  lemma SliceOfFront<T>(x: seq<T>, n: nat, a: nat, b: nat)
    requires a <= b <= n <= |x|
    ensures x[..n][a..b] == x[a..b]
  {
  }

  lemma {:induction false} LastSegment<D(!new), X>(item: (D, nat, int) -> X, tag: X -> nat, parts: seq<seq<D>>, ids: nat -> int, x: seq<X>, n: nat)
    requires parts != [] && Items(item, Flat(parts), ids, x) && Tags(item, tag, parts) && n == |Flat(parts[..|parts| - 1])|
    ensures n + |parts[|parts| - 1]| == |x| && Filter(Tagged(tag, |parts| - 1), x) == x[n..]
  {
    ItemsFront(item, tag, parts, ids, x, n);
    FilterCut(Tagged(tag, |parts| - 1), x, n);
    NoSegment(item, tag, parts[..|parts| - 1], ids, x[..n], |parts| - 1);
    FilterAll(Tagged(tag, |parts| - 1), x[n..]);
    assert [] + x[n..] == x[n..];
  }

  lemma {:induction false} EarlierSegment<D(!new), X>(item: (D, nat, int) -> X, tag: X -> nat, parts: seq<seq<D>>, ids: nat -> int, x: seq<X>, k: nat, n: nat)
    requires Items(item, Flat(parts), ids, x) && Tags(item, tag, parts) && k < |parts| - 1 && n == |Flat(parts[..|parts| - 1])|
    ensures n <= |x| && Filter(Tagged(tag, k), x) == Filter(Tagged(tag, k), x[..n])
  {
    ItemsFront(item, tag, parts, ids, x, n);
    FilterCut(Tagged(tag, k), x, n);
    FilterNone(Tagged(tag, k), x[n..]);
    assert Filter(Tagged(tag, k), x[..n]) + [] == Filter(Tagged(tag, k), x[..n]);
  }

  /** Selecting the items by tag gives the items of one part. */
  lemma {:induction false} SegmentsBack<D(!new), X>(item: (D, nat, int) -> X, tag: X -> nat, parts: seq<seq<D>>, ids: nat -> int, x: seq<X>, k: nat)
    requires Items(item, Flat(parts), ids, x) && Tags(item, tag, parts) && k < |parts|
    ensures Offset(parts, k) + |parts[k]| <= |x|
    ensures Filter(Tagged(tag, k), x) == x[Offset(parts, k)..Offset(parts, k) + |parts[k]|]
    decreases |parts|
  {
    var front := parts[..|parts| - 1];
    var n := |Flat(front)|;
    if k < |front| {
      ItemsFront(item, tag, parts, ids, x, n);
      EarlierSegment(item, tag, parts, ids, x, k, n);
      SegmentsBack(item, tag, front, ids, x[..n], k);
      assert front[..k] == parts[..k] && front[k] == parts[k];
      SliceOfFront(x, n, Offset(parts, k), Offset(parts, k) + |parts[k]|);
    } else {
      LastSegment(item, tag, parts, ids, x, n);
      assert parts[..k] == front;
    }
  }

  /** The i-th item of a part. */
  lemma {:induction false} SegmentItem<D(!new), X>(item: (D, nat, int) -> X, parts: seq<seq<D>>, ids: nat -> int, x: seq<X>, k: nat, i: nat)
    requires Items(item, Flat(parts), ids, x) && k < |parts| && i < |parts[k]| && Offset(parts, k) + |parts[k]| <= |x|
    ensures var j := Offset(parts, k) + i; x[j] == item(parts[k][i], j, ids(j))
  {
    FlatAt(parts, k, i);
  }

  /** Selecting by tag gives a part item by item. */
  lemma {:induction false} SelectPart<D(!new), X>(item: (D, nat, int) -> X, tag: X -> nat, parts: seq<seq<D>>, ids: nat -> int, x: seq<X>, k: nat)
    returns (at: nat)
    requires Items(item, Flat(parts), ids, x) && Tags(item, tag, parts) && k < |parts|
    ensures |Filter(Tagged(tag, k), x)| == |parts[k]|
    ensures forall i: nat :: i < |parts[k]| ==> Filter(Tagged(tag, k), x)[i] == item(parts[k][i], at + i, ids(at + i))
  {
    at := Offset(parts, k);
    SegmentsBack(item, tag, parts, ids, x, k);
    forall i: nat | i < |parts[k]| ensures Filter(Tagged(tag, k), x)[i] == item(parts[k][i], at + i, ids(at + i)) {
      SegmentItem(item, parts, ids, x, k, i);
    }
  }

  lemma {:induction false} FlatAt<T>(parts: seq<seq<T>>, k: nat, i: nat)
    requires k < |parts| && i < |parts[k]|
    ensures Offset(parts, k) + i < |Flat(parts)| && Flat(parts)[Offset(parts, k) + i] == parts[k][i]
  {
    var front := parts[..|parts| - 1];
    if k < |front| {
      FlatAt(front, k, i);
      assert front[..k] == parts[..k];
    } else {
      assert parts[..k] == front;
    }
  }

  // ---------------------------------------------------------------- settings

  function FirstValue(x: Exclusion): string { if x.conditions == [] then "" else x.conditions[0].value }

  function RuleLine(x: CustomRule): string { x.text }

  function OwnEnabled(x: CustomRule): bool { x.scope == Enterprise && x.enabled }

  /** ApplyToSettings; `join` puts rule lines together. */
  function Projected(join: seq<string> -> string, c: Configuration, s: Settings): Settings {
    s.(scalars := c.scalars,
       ips := Map(FirstValue, Filter(Tagged(Tag, 1), c.exclusions)), paths := Map(FirstValue, Filter(Tagged(Tag, 2), c.exclusions)),
       exclusions := Filter(Tagged(Tag, 3), c.exclusions),
       customRules := join(Map(RuleLine, Filter(OwnEnabled, c.customRules))))
  }

  lemma FilterStep<T>(keep: T -> bool, s: seq<T>, i: nat)
    requires i < |s|
    ensures Filter(keep, s[..i + 1]) == if keep(s[i]) then Filter(keep, s[..i]) + [s[i]] else Filter(keep, s[..i])
  {
    assert s[..i + 1][..i] == s[..i];
  }

  lemma CollectStep<A, B>(keep: A -> bool, f: A -> B, s: seq<A>, i: nat)
    requires i < |s|
    ensures var done := Map(f, Filter(keep, s[..i]));
            Map(f, Filter(keep, s[..i + 1])) == if keep(s[i]) then done + [f(s[i])] else done
  {
    FilterStep(keep, s, i);
  }

  method ApplyToSettings(join: seq<string> -> string, c: Configuration, s: Settings) returns (r: Settings)
    ensures r == Projected(join, c, s)
  {
    var ips, paths, own: seq<Exclusion> := [], [], [];
    for i := 0 to |c.exclusions|
      invariant ips == Map(FirstValue, Filter(Tagged(Tag, 1), c.exclusions[..i]))
      invariant paths == Map(FirstValue, Filter(Tagged(Tag, 2), c.exclusions[..i]))
      invariant own == Filter(Tagged(Tag, 3), c.exclusions[..i])
    {
      CollectStep(Tagged(Tag, 1), FirstValue, c.exclusions, i);
      CollectStep(Tagged(Tag, 2), FirstValue, c.exclusions, i);
      FilterStep(Tagged(Tag, 3), c.exclusions, i);
      var x := c.exclusions[i];
      if x.scope == Enterprise {
        if x.kind == EngineBypass && x.legacy && |x.conditions| == 1 {
          var condition := x.conditions[0];
          if condition.field == Uri && condition.operator == BeginsWith {
            assert Tag(x) == 2;
            paths := paths + [condition.value];
          } else if condition.field == Address && condition.operator == IpMatch {
            assert Tag(x) == 1;
            ips := ips + [condition.value];
          } else {
            assert Tag(x) == 3;
            own := own + [x];
          }
        } else {
          assert Tag(x) == 3;
          own := own + [x];
        }
      }
    }
    assert c.exclusions[..|c.exclusions|] == c.exclusions;
    var lines := Collect(OwnEnabled, RuleLine, c.customRules);
    return s.(scalars := c.scalars, ips := ips, paths := paths, exclusions := own, customRules := join(lines));
  }

  // ---------------------------------------------------------------- settings built again

  /** Trimming leaves the field and operator names of generated conditions alone. */
  predicate PlainNames(f: Cleanup) {
    f.trim(Address) == Address && f.trim(Uri) == Uri && f.trim(IpMatch) == IpMatch && f.trim(BeginsWith) == BeginsWith
  }

  /** A trimmed value makes the same bypass. */
  lemma BypassSame(f: Cleanup, scope: Scope, field: string, operator: string, value: string)
    requires Idempotent(f)
    ensures Same(f, LegacyBypass(scope, field, operator)(f.trim(value)), LegacyBypass(scope, field, operator)(value))
  {
    var a, b := LegacyBypass(scope, field, operator)(f.trim(value)), LegacyBypass(scope, field, operator)(value);
    assert f.trim(f.trim(value)) == f.trim(value);
    assert CleanConditions(f, a.item.conditions) == CleanConditions(f, b.item.conditions);
  }

  lemma FlatFour<T>(a: seq<T>, b: seq<T>, c: seq<T>, d: seq<T>)
    ensures Flat([a, b, c, d]) == a + b + c + d
  {
    assert [a, b, c, d][..3] == [a, b, c] && [a, b, c][..2] == [a, b] && [a, b][..1] == [a] && [a][..0] == [];
    assert Flat([a]) == [] + a && [] + a == a;
    assert Flat([a, b]) == a + b && Flat([a, b, c]) == a + b + c;
  }

  /** Settings without a legacy bypass by one address or path among their exclusions. */
  predicate NoSingles(f: Cleanup, s: Settings) {
    forall i :: 0 <= i < |s.exclusions| ==> !IsIp(CleanExclusion(f)(s.exclusions[i])) && !IsPath(CleanExclusion(f)(s.exclusions[i]))
  }

  /** An exclusion goes to a list, with a value where the list is one of values. */
  predicate Goes(x: Exclusion, tag: nat, value: string) { Tag(x) == tag && (tag == 1 || tag == 2 ==> FirstValue(x) == value) }

  lemma SystemGoes(f: Cleanup, d: Draft, order: nat, id: int)
    requires d.item.scope == System
    ensures Goes(Item(f, d, order, id), 0, "")
  {
  }

  lemma AddressGoes(f: Cleanup, value: string, order: nat, id: int)
    requires PlainNames(f)
    ensures Goes(Item(f, LegacyBypass(Enterprise, Address, IpMatch)(value), order, id), 1, f.trim(value))
  {
    assert Address[2] != Uri[2];
  }

  lemma PathGoes(f: Cleanup, value: string, order: nat, id: int)
    requires PlainNames(f)
    ensures Goes(Item(f, LegacyBypass(Enterprise, Uri, BeginsWith)(value), order, id), 2, f.trim(value))
  {
    assert Address[2] != Uri[2];
  }

  lemma OwnGoes(f: Cleanup, x: Exclusion, order: nat, id: int)
    requires !IsIp(CleanExclusion(f)(x)) && !IsPath(CleanExclusion(f)(x))
    ensures Goes(Item(f, OwnDraft(x), order, id), 3, "")
  {
  }

  function EnterpriseParts(system: seq<Draft>, s: Settings): seq<seq<Draft>> {
    [system, Map(LegacyBypass(Enterprise, Address, IpMatch), s.ips), Map(LegacyBypass(Enterprise, Uri, BeginsWith), s.paths), Map(OwnDraft, s.exclusions)]
  }

  function ItemOf(f: Cleanup): (Draft, nat, int) -> Exclusion { (d: Draft, order: nat, id: int) => Item(f, d, order, id) }

  function IdsOf(drafts: seq<Draft>): nat -> int { (j: nat) => if j <= |drafts| then GeneratedMin + Needed(drafts[..j]) else 0 }

  lemma {:induction false} BuiltItems(f: Cleanup, drafts: seq<Draft>)
    ensures Items(ItemOf(f), drafts, IdsOf(drafts), BuiltExclusions(f, drafts))
  {
    forall j: nat | j < |drafts| ensures BuiltExclusions(f, drafts)[j] == ItemOf(f)(drafts[j], j, IdsOf(drafts)(j)) { BuiltAt(f, drafts, j); }
  }

  lemma SystemTags(f: Cleanup, system: seq<Draft>)
    requires DraftsIn(System, system)
    ensures Each(ItemOf(f), Tag, system, 0)
  {
    forall i, order, id | 0 <= i < |system| ensures Tag(ItemOf(f)(system[i], order, id)) == 0 { SystemGoes(f, system[i], order, id); }
  }

  lemma AddressTags(f: Cleanup, values: seq<string>)
    requires PlainNames(f)
    ensures Each(ItemOf(f), Tag, Map(LegacyBypass(Enterprise, Address, IpMatch), values), 1)
  {
    var drafts := Map(LegacyBypass(Enterprise, Address, IpMatch), values);
    forall i, order, id | 0 <= i < |drafts| ensures Tag(ItemOf(f)(drafts[i], order, id)) == 1 { AddressGoes(f, values[i], order, id); }
  }

  lemma PathTags(f: Cleanup, values: seq<string>)
    requires PlainNames(f)
    ensures Each(ItemOf(f), Tag, Map(LegacyBypass(Enterprise, Uri, BeginsWith), values), 2)
  {
    var drafts := Map(LegacyBypass(Enterprise, Uri, BeginsWith), values);
    forall i, order, id | 0 <= i < |drafts| ensures Tag(ItemOf(f)(drafts[i], order, id)) == 2 { PathGoes(f, values[i], order, id); }
  }

  lemma OwnTags(f: Cleanup, s: Settings)
    requires NoSingles(f, s)
    ensures Each(ItemOf(f), Tag, Map(OwnDraft, s.exclusions), 3)
  {
    var drafts := Map(OwnDraft, s.exclusions);
    forall i, order, id | 0 <= i < |drafts| ensures Tag(ItemOf(f)(drafts[i], order, id)) == 3 { OwnGoes(f, s.exclusions[i], order, id); }
  }

  lemma FourTags<D(!new), X>(item: (D, nat, int) -> X, tag: X -> nat, a: seq<D>, b: seq<D>, c: seq<D>, d: seq<D>)
    requires Each(item, tag, a, 0) && Each(item, tag, b, 1) && Each(item, tag, c, 2) && Each(item, tag, d, 3)
    ensures Tags(item, tag, [a, b, c, d])
  {
  }

  lemma EnterpriseTags(f: Cleanup, system: seq<Draft>, s: Settings)
    requires PlainNames(f) && DraftsIn(System, system) && NoSingles(f, s)
    ensures Tags(ItemOf(f), Tag, EnterpriseParts(system, s))
  {
    SystemTags(f, system);
    AddressTags(f, s.ips);
    PathTags(f, s.paths);
    OwnTags(f, s);
    FourTags(ItemOf(f), Tag, system, Map(LegacyBypass(Enterprise, Address, IpMatch), s.ips), Map(LegacyBypass(Enterprise, Uri, BeginsWith), s.paths), Map(OwnDraft, s.exclusions));
  }

  lemma EnterprisePartsFlat(system: seq<Draft>, s: Settings)
    ensures Flat(EnterpriseParts(system, s)) == system + EnterpriseDrafts(s)
  {
    var a, b, c := Map(LegacyBypass(Enterprise, Address, IpMatch), s.ips), Map(LegacyBypass(Enterprise, Uri, BeginsWith), s.paths), Map(OwnDraft, s.exclusions);
    FlatFour(system, a, b, c);
    Regroup(system, a, b, c);
  }

  /** The k-th part of a built list, item by item. */
  lemma PartOf(f: Cleanup, parts: seq<seq<Draft>>, tag: Exclusion -> nat, x: seq<Exclusion>, k: nat) returns (at: nat)
    requires x == BuiltExclusions(f, Flat(parts)) && Tags(ItemOf(f), tag, parts) && k < |parts|
    ensures |Filter(Tagged(tag, k), x)| == |parts[k]|
    ensures forall i: nat :: i < |parts[k]| ==> Filter(Tagged(tag, k), x)[i] == Item(f, parts[k][i], at + i, IdsOf(Flat(parts))(at + i))
  {
    BuiltItems(f, Flat(parts));
    at := SelectPart(ItemOf(f), tag, parts, IdsOf(Flat(parts)), x, k);
    var seg := Filter(Tagged(tag, k), x);
    forall i: nat | i < |parts[k]| ensures seg[i] == Item(f, parts[k][i], at + i, IdsOf(Flat(parts))(at + i)) {
      assert seg[i] == ItemOf(f)(parts[k][i], at + i, IdsOf(Flat(parts))(at + i));
    }
  }

  // ---------------------------------------------------------------- custom rules built again

  /** Rule lines are canonical, and joined lines are parsed to the same lines. */
  ghost predicate Reparses(f: Cleanup, g: RuleText, join: seq<string> -> string) {
    forall text :: g.parse(text).Some? ==>
      && g.parse(join(g.parse(text).value)) == g.parse(text)
      && forall i :: 0 <= i < |g.parse(text).value| ==> f.canonical(g.parse(text).value[i]) == g.parse(text).value[i]
  }

  lemma {:induction false} SuffixLines<T>(keep: T -> bool, line: T -> string, x: seq<T>, n: nat, b: seq<string>)
    requires |x| == n + |b| && forall i :: 0 <= i < |x| ==> keep(x[i]) == (i >= n)
    requires forall i :: 0 <= i < |b| ==> line(x[n + i]) == b[i]
    ensures Map(line, Filter(keep, x)) == b
  {
    FilterCut(keep, x, n);
    FilterNone(keep, x[..n]);
    FilterAll(keep, x[n..]);
    assert Filter(keep, x) == x[n..];
    assert forall i :: 0 <= i < |b| ==> x[n..][i] == x[n + i];
  }

  lemma {:induction false} BuiltRuleAt(f: Cleanup, rules: seq<CustomRule>, i: nat)
    requires i < |rules|
    ensures var x := BuiltRules(f, rules)[i];
            x.scope == rules[i].scope && x.enabled == rules[i].enabled && x.text == f.canonical(rules[i].text)
  {
    assert NumberRules(rules)[i] == rules[i].(order := i);
  }

  lemma {:induction false} RuleLinesBack(f: Cleanup, g: RuleText, a: seq<string>, b: seq<string>, x: seq<CustomRule>)
    requires x == BuiltRules(f, Map(RuleOf(g, System), a) + Map(RuleOf(g, Enterprise), b))
    requires forall i :: 0 <= i < |b| ==> f.canonical(b[i]) == b[i]
    ensures Map(RuleLine, Filter(OwnEnabled, x)) == b
  {
    OwnRulesAt(f, g, a, b, x);
    SuffixLines(OwnEnabled, RuleLine, x, |a|, b);
  }

  lemma {:induction false} OwnRulesAt(f: Cleanup, g: RuleText, a: seq<string>, b: seq<string>, x: seq<CustomRule>)
    requires x == BuiltRules(f, Map(RuleOf(g, System), a) + Map(RuleOf(g, Enterprise), b))
    ensures |x| == |a| + |b| && forall i :: 0 <= i < |x| ==> OwnEnabled(x[i]) == (i >= |a|)
    ensures forall i :: 0 <= i < |b| ==> RuleLine(x[|a| + i]) == f.canonical(b[i])
  {
    forall i: nat | i < |x| ensures OwnEnabled(x[i]) == (i >= |a|) { OwnRuleAt(f, g, a, b, x, i); }
    forall i: nat | i < |b| ensures RuleLine(x[|a| + i]) == f.canonical(b[i]) { OwnRuleAt(f, g, a, b, x, |a| + i); }
  }

  lemma {:induction false} OwnRuleAt(f: Cleanup, g: RuleText, a: seq<string>, b: seq<string>, x: seq<CustomRule>, i: nat)
    requires x == BuiltRules(f, Map(RuleOf(g, System), a) + Map(RuleOf(g, Enterprise), b)) && i < |x|
    ensures |x| == |a| + |b| && OwnEnabled(x[i]) == (i >= |a|) && (i >= |a| ==> RuleLine(x[i]) == f.canonical(b[i - |a|]))
  {
    var rules := Map(RuleOf(g, System), a) + Map(RuleOf(g, Enterprise), b);
    BuiltRuleAt(f, rules, i);
    assert rules[i] == if i < |a| then RuleOf(g, System)(a[i]) else RuleOf(g, Enterprise)(b[i - |a|]);
  }

  lemma FilledAgain(t: Scalars, s: Scalars)
    ensures CleanScalars(Filled(t, CleanScalars(Filled(t, s)))) == CleanScalars(Filled(t, s))
  {
  }

  lemma ItemClean(f: Cleanup, d: Draft, order: nat, id: int)
    requires Idempotent(f)
    ensures CleanExclusion(f)(Item(f, d, order, id)) == Item(f, d, order, id)
  {
    CleanAgain(f, Place(d, order, id));
  }

  lemma ThreeIsNoSingle(x: Exclusion)
    requires Tag(x) == 3
    ensures !IsIp(x) && !IsPath(x)
  {
  }

  /** Exclusions that were projected are not moved to the lists again. */
  lemma NoSinglesLeft(f: Cleanup, drafts: seq<Draft>, x: seq<Exclusion>, i: nat)
    requires Idempotent(f) && x == BuiltExclusions(f, drafts) && i < |Filter(Tagged(Tag, 3), x)|
    ensures var y := CleanExclusion(f)(Filter(Tagged(Tag, 3), x)[i]); !IsIp(y) && !IsPath(y)
  {
    var y := Filter(Tagged(Tag, 3), x)[i];
    FilterMember(Tagged(Tag, 3), x, i);
    var j: nat :| j < |x| && x[j] == y;
    BuiltAt(f, drafts, j);
    ItemClean(f, drafts[j], j, GeneratedMin + Needed(drafts[..j]));
    ThreeIsNoSingle(y);
  }

  lemma {:induction false} FilterHas<T>(keep: T -> bool, s: seq<T>, j: nat)
    requires j < |s| && keep(s[j])
    ensures s[j] in Filter(keep, s)
  {
    if j < |s| - 1 { FilterHas(keep, s[..|s| - 1], j); }
  }

  // ---------------------------------------------------------------- exactly when the projection is undone

  /** A bypass with nothing but its one condition, as the lists of addresses and paths make it. */
  predicate Bare(f: Cleanup, x: Exclusion) {
    && x.stage == BeforeCrs && x.ruleId == 0 && x.ruleTag == f.trim("") && x.target == f.trim("") && x.reason == f.trim("")
    && x.expiresAt == None && x.enabled
  }

  /** Address bypasses, then path bypasses, then the rest, and the bypasses are bare. */
  predicate Settled(f: Cleanup, tag: Exclusion -> nat, x: seq<Exclusion>) {
    && (forall i, j :: 0 <= i < j < |x| ==> tag(x[i]) <= tag(x[j]))
    && (forall i :: 0 <= i < |x| && (tag(x[i]) == 1 || tag(x[i]) == 2) ==> Bare(f, x[i]))
  }

  /** Drafts of the enterprise layer get an id exactly when they are loaded before the CRS with conditions. */
  predicate OwnLike(d: Draft) {
    d.item.scope == Enterprise && d.item.id == "" && (d.allocate <==> d.item.stage == BeforeCrs && d.item.conditions != [])
  }

  lemma EnterpriseOwnLike(s: Settings)
    ensures forall i :: 0 <= i < |EnterpriseDrafts(s)| ==> OwnLike(EnterpriseDrafts(s)[i])
  {
  }

  lemma OwnLikeSame(f: Cleanup, d: Draft, order: nat, id: int)
    requires Idempotent(f) && OwnLike(d)
    ensures Same(f, OwnDraft(Item(f, d, order, id)), d)
  {
    var y := Place(d, order, id);
    CleanAgain(f, y);
    assert |CleanConditions(f, d.item.conditions)| == |d.item.conditions|;
    assert f.trim(f.trim(d.item.ruleTag)) == f.trim(d.item.ruleTag) && f.trim(f.trim(d.item.target)) == f.trim(d.item.target);
    assert f.trim(f.trim(d.item.reason)) == f.trim(d.item.reason);
    assert CleanConditions(f, CleanConditions(f, d.item.conditions)) == CleanConditions(f, d.item.conditions) by {
      assert CleanExclusion(f)(CleanExclusion(f)(y)).conditions == CleanExclusion(f)(y).conditions;
    }
  }

  /** A bare bypass is rebuilt from its value. */
  lemma BareSame(f: Cleanup, field: string, operator: string, d: Draft, x: Exclusion, order: nat, id: int)
    requires Idempotent(f) && OwnLike(d) && x == Item(f, d, order, id) && Bare(f, x) && SingleLegacy(x)
    requires x.conditions[0].field == field && x.conditions[0].operator == operator && f.trim(field) == field && f.trim(operator) == operator
    ensures Same(f, LegacyBypass(Enterprise, field, operator)(FirstValue(x)), d)
  {
    var e := LegacyBypass(Enterprise, field, operator)(FirstValue(x));
    assert x.conditions == CleanConditions(f, d.item.conditions);
    assert |CleanConditions(f, d.item.conditions)| == |d.item.conditions|;
    var v := d.item.conditions[0].value;
    assert f.trim(f.trim(v)) == f.trim(v);
    assert CleanConditions(f, d.item.conditions) == [Condition(field, operator, f.trim(v), 0)];
    assert CleanConditions(f, e.item.conditions) == [Condition(field, operator, f.trim(v), 0)];
  }

  lemma SingleFields(x: Exclusion)
    ensures Tag(x) == 1 ==> SingleLegacy(x) && x.conditions[0].field == Address && x.conditions[0].operator == IpMatch
    ensures Tag(x) == 2 ==> SingleLegacy(x) && x.conditions[0].field == Uri && x.conditions[0].operator == BeginsWith
    ensures Tag(x) <= 3 && (x.scope == System <==> Tag(x) == 0)
  {
  }

  lemma SnocFour<T>(a: seq<T>, b: seq<T>, c: seq<T>, d: seq<T>, x: T)
    ensures a + b + c + (d + [x]) == a + b + c + d + [x]
    ensures d == [] ==> a + b + (c + [x]) + d == a + b + c + d + [x]
    ensures c == [] && d == [] ==> a + (b + [x]) + c + d == a + b + c + d + [x]
    ensures b == [] && c == [] && d == [] ==> (a + [x]) + b + c + d == a + b + c + d + [x]
  {
  }

  lemma {:induction false} FilterSnocTag<T>(tag: T -> nat, front: seq<T>, last: T, k: nat)
    ensures Filter(Tagged(tag, k), front + [last]) == if tag(last) == k then Filter(Tagged(tag, k), front) + [last] else Filter(Tagged(tag, k), front)
  {
    assert (front + [last])[..|front|] == front;
  }

  /** A list whose tags never decrease is its parts one after the other. */
  lemma {:induction false} CutSorted<T>(tag: T -> nat, x: seq<T>)
    requires (forall i, j :: 0 <= i < j < |x| ==> tag(x[i]) <= tag(x[j])) && (forall i :: 0 <= i < |x| ==> tag(x[i]) <= 3)
    ensures x == Filter(Tagged(tag, 0), x) + Filter(Tagged(tag, 1), x) + Filter(Tagged(tag, 2), x) + Filter(Tagged(tag, 3), x)
    decreases |x|
  {
    if x != [] {
      var front, last := x[..|x| - 1], x[|x| - 1];
      assert x == front + [last];
      CutSorted(tag, front);
      var a, b, c, d := Filter(Tagged(tag, 0), front), Filter(Tagged(tag, 1), front), Filter(Tagged(tag, 2), front), Filter(Tagged(tag, 3), front);
      FilterSnocTag(tag, front, last, 0);
      FilterSnocTag(tag, front, last, 1);
      FilterSnocTag(tag, front, last, 2);
      FilterSnocTag(tag, front, last, 3);
      if tag(last) < 1 { FilterNone(Tagged(tag, 1), front); }
      if tag(last) < 2 { FilterNone(Tagged(tag, 2), front); }
      if tag(last) < 3 { FilterNone(Tagged(tag, 3), front); }
      SnocFour(a, b, c, d, last);
    }
  }

  /** The draft a projected exclusion comes back as. */
  function Rebuild(tag: Exclusion -> nat): Exclusion -> Draft {
    (x: Exclusion) => if tag(x) == 1 then LegacyBypass(Enterprise, Address, IpMatch)(FirstValue(x))
                      else if tag(x) == 2 then LegacyBypass(Enterprise, Uri, BeginsWith)(FirstValue(x)) else OwnDraft(x)
  }

  lemma RebuiltDrafts(tag: Exclusion -> nat, x: seq<Exclusion>, r: Settings)
    requires r.ips == Map(FirstValue, Filter(Tagged(tag, 1), x)) && r.paths == Map(FirstValue, Filter(Tagged(tag, 2), x))
    requires r.exclusions == Filter(Tagged(tag, 3), x)
    ensures EnterpriseDrafts(r) == Map(Rebuild(tag), Filter(Tagged(tag, 1), x) + Filter(Tagged(tag, 2), x) + Filter(Tagged(tag, 3), x))
  {
    var a, b, c := Filter(Tagged(tag, 1), x), Filter(Tagged(tag, 2), x), Filter(Tagged(tag, 3), x);
    FilterKeeps(Tagged(tag, 1), x);
    FilterKeeps(Tagged(tag, 2), x);
    FilterKeeps(Tagged(tag, 3), x);
    MapAppend(Rebuild(tag), a + b, c);
    MapAppend(Rebuild(tag), a, b);
    assert Map(LegacyBypass(Enterprise, Address, IpMatch), r.ips) == Map(Rebuild(tag), a);
    assert Map(LegacyBypass(Enterprise, Uri, BeginsWith), r.paths) == Map(Rebuild(tag), b);
    assert Map(OwnDraft, r.exclusions) == Map(Rebuild(tag), c);
  }

  lemma RebuildSame(f: Cleanup, d: Draft, x: Exclusion, order: nat, id: int)
    requires Idempotent(f) && PlainNames(f) && OwnLike(d) && x == Item(f, d, order, id)
    requires Tag(x) == 1 || Tag(x) == 2 ==> Bare(f, x)
    ensures Same(f, Rebuild(Tag)(x), d)
  {
    SingleFields(x);
    if Tag(x) == 1 {
      BareSame(f, Address, IpMatch, d, x, order, id);
    } else if Tag(x) == 2 {
      BareSame(f, Uri, BeginsWith, d, x, order, id);
    } else {
      OwnLikeSame(f, d, order, id);
    }
  }

  lemma {:induction false} SystemTagsZero(f: Cleanup, system: seq<Draft>, own: seq<Draft>, x: seq<Exclusion>)
    requires x == BuiltExclusions(f, system + own) && DraftsIn(System, system) && DraftsIn(Enterprise, own)
    ensures Filter(Tagged(Tag, 0), x) == x[..|system|]
  {
    forall i: nat | i < |x| ensures Tag(x[i]) == 0 <==> i < |system| {
      PlacedScopes(system, own, i);
      SingleFields(x[i]);
    }
    FilterPrefix(Tagged(Tag, 0), x, |system|);
  }

  lemma SettledCut(f: Cleanup, system: seq<Draft>, own: seq<Draft>, x: seq<Exclusion>)
    requires DraftsIn(System, system) && DraftsIn(Enterprise, own) && x == BuiltExclusions(f, system + own) && Settled(f, Tag, x)
    ensures x[|system|..] == Filter(Tagged(Tag, 1), x) + Filter(Tagged(Tag, 2), x) + Filter(Tagged(Tag, 3), x)
  {
    SystemTagsZero(f, system, own, x);
    forall i | 0 <= i < |x| ensures Tag(x[i]) <= 3 { SingleFields(x[i]); }
    CutSorted(Tag, x);
    RestIs(x, |system|, Filter(Tagged(Tag, 1), x), Filter(Tagged(Tag, 2), x), Filter(Tagged(Tag, 3), x));
  }

  lemma {:induction false} RebuildAllSame(f: Cleanup, system: seq<Draft>, own: seq<Draft>, x: seq<Exclusion>)
    requires Idempotent(f) && PlainNames(f) && x == BuiltExclusions(f, system + own) && Settled(f, Tag, x)
    requires forall i :: 0 <= i < |own| ==> OwnLike(own[i])
    ensures AllSame(f, Map(Rebuild(Tag), x[|system|..]), own)
  {
    var n := |system|;
    assert |x| == n + |own|;
    forall i: nat | i < |own| ensures Same(f, Map(Rebuild(Tag), x[n..])[i], own[i]) {
      BuiltAt(f, system + own, n + i);
      assert (system + own)[n + i] == own[i] && x[n..][i] == x[n + i];
      RebuildSame(f, own[i], x[n + i], n + i, GeneratedMin + Needed((system + own)[..n + i]));
    }
  }

  /** A settled list is rebuilt from its projection. */
  lemma SettledFixed(f: Cleanup, system: seq<Draft>, s: Settings, x: seq<Exclusion>, r: Settings)
    requires Idempotent(f) && PlainNames(f) && DraftsIn(System, system) && x == BuiltExclusions(f, system + EnterpriseDrafts(s)) && Settled(f, Tag, x)
    requires r.ips == Map(FirstValue, Filter(Tagged(Tag, 1), x)) && r.paths == Map(FirstValue, Filter(Tagged(Tag, 2), x)) && r.exclusions == Filter(Tagged(Tag, 3), x)
    ensures BuiltExclusions(f, system + EnterpriseDrafts(r)) == x
  {
    EnterpriseDraftsIn(s);
    SettledCut(f, system, EnterpriseDrafts(s), x);
    RebuiltDrafts(Tag, x, r);
    EnterpriseOwnLike(s);
    RebuildAllSame(f, system, EnterpriseDrafts(s), x);
    SameSelf(f, system);
    SameAppend(f, system, system, EnterpriseDrafts(r), EnterpriseDrafts(s));
    BuiltSame(f, system + EnterpriseDrafts(r), system + EnterpriseDrafts(s));
  }

  lemma RestIs<T>(x: seq<T>, n: nat, a: seq<T>, b: seq<T>, c: seq<T>)
    requires n <= |x| && x == x[..n] + a + b + c
    ensures x[n..] == a + b + c
  {
    assert x == x[..n] + (a + b + c);
  }

  lemma {:induction false} TagsBelow<D(!new), X>(item: (D, nat, int) -> X, tag: X -> nat, parts: seq<seq<D>>, ids: nat -> int, x: seq<X>)
    requires Items(item, Flat(parts), ids, x) && Tags(item, tag, parts)
    ensures forall i :: 0 <= i < |x| ==> tag(x[i]) < |parts|
    ensures forall i, j :: 0 <= i < j < |x| ==> tag(x[i]) <= tag(x[j])
    decreases |parts|
  {
    if parts != [] {
      var front := parts[..|parts| - 1];
      var n := |Flat(front)|;
      ItemsFront(item, tag, parts, ids, x, n);
      TagsBelow(item, tag, front, ids, x[..n]);
      forall i | 0 <= i < |x| ensures i < n ==> tag(x[i]) < |front| && x[..n][i] == x[i]
      { }
      forall i | n <= i < |x| ensures tag(x[i]) == |parts| - 1 { assert x[n..][i - n] == x[i]; }
      forall i, j | 0 <= i < j < |x| ensures tag(x[i]) <= tag(x[j]) {
        if j < n { assert tag(x[..n][i]) <= tag(x[..n][j]); }
      }
    }
  }

  lemma ListedIsBare(f: Cleanup, field: string, operator: string, value: string, order: nat, id: int)
    ensures Bare(f, Item(f, LegacyBypass(Enterprise, field, operator)(value), order, id))
  {
  }

  /** Lists built from settings without singles are settled. */
  lemma BuiltIsSettled(f: Cleanup, system: seq<Draft>, s: Settings, x: seq<Exclusion>)
    requires PlainNames(f) && DraftsIn(System, system) && NoSingles(f, s) && x == BuiltExclusions(f, system + EnterpriseDrafts(s))
    ensures Settled(f, Tag, x)
  {
    var parts := EnterpriseParts(system, s);
    EnterprisePartsFlat(system, s);
    EnterpriseTags(f, system, s);
    BuiltItems(f, Flat(parts));
    TagsBelow(ItemOf(f), Tag, parts, IdsOf(Flat(parts)), x);
    forall j: nat | j < |x| && (Tag(x[j]) == 1 || Tag(x[j]) == 2) ensures Bare(f, x[j]) {
      PartIsBare(f, parts, system, s, x, j, Tag(x[j]));
    }
  }

  lemma PartIsBare(f: Cleanup, parts: seq<seq<Draft>>, system: seq<Draft>, s: Settings, x: seq<Exclusion>, j: nat, k: nat)
    requires parts == EnterpriseParts(system, s) && x == BuiltExclusions(f, Flat(parts)) && Tags(ItemOf(f), Tag, parts)
    requires j < |x| && Tag(x[j]) == k && (k == 1 || k == 2)
    ensures Bare(f, x[j])
  {
    FilterHas(Tagged(Tag, k), x, j);
    var at := PartOf(f, parts, Tag, x, k);
    var i: nat :| i < |Filter(Tagged(Tag, k), x)| && Filter(Tagged(Tag, k), x)[i] == x[j];
    if k == 1 {
      ListedIsBare(f, Address, IpMatch, s.ips[i], at + i, IdsOf(Flat(parts))(at + i));
    } else {
      ListedIsBare(f, Uri, BeginsWith, s.paths[i], at + i, IdsOf(Flat(parts))(at + i));
    }
  }

  /** Building from the projection of a built configuration gives that configuration back exactly when its address
      bypasses come before its path bypasses, these before its other enterprise exclusions, and all of them are bare. */
  lemma ProjectionUndone(f: Cleanup, g: RuleText, join: seq<string> -> string, keys: set<string>, owner: (string, string),
                         t: Template, s: Settings, names: seq<string>, c: Configuration)
    requires forall i :: 0 <= i < |names| ==> names[i] in t.setup
    requires Idempotent(f) && PlainNames(f) && Reparses(f, g, join) && Built(f, g, keys, owner, t, s, names) == Some(c)
    ensures Built(f, g, keys, owner, t, Projected(join, c, s), names) == Some(c) <==> Settled(f, Tag, c.exclusions)
  {
    var r := Projected(join, c, s);
    BuiltParts(f, g, keys, owner, t, s, names, c);
    SystemDraftsIn(t);
    RuleLinesBack(f, g, g.parse(t.customRules).value, g.parse(s.customRules).value, c.customRules);
    FilledAgain(t.scalars, s.scalars);
    var again := Built(f, g, keys, owner, t, r, names).value;
    BuiltParts(f, g, keys, owner, t, r, names, again);
    if Settled(f, Tag, c.exclusions) {
      SettledFixed(f, SystemDrafts(t), s, c.exclusions, r);
    }
    if again == c {
      forall i: nat | i < |r.exclusions| ensures !IsIp(CleanExclusion(f)(r.exclusions[i])) && !IsPath(CleanExclusion(f)(r.exclusions[i])) {
        NoSinglesLeft(f, SystemDrafts(t) + EnterpriseDrafts(s), c.exclusions, i);
      }
      BuiltIsSettled(f, SystemDrafts(t), r, c.exclusions);
    }
  }

  /** In particular it does when the settings held no legacy bypass by one address or path among their exclusions. */
  lemma SettingsFixpoint(f: Cleanup, g: RuleText, join: seq<string> -> string, keys: set<string>, owner: (string, string),
                         t: Template, s: Settings, names: seq<string>, c: Configuration)
    requires forall i :: 0 <= i < |names| ==> names[i] in t.setup
    requires Idempotent(f) && PlainNames(f) && Reparses(f, g, join) && NoSingles(f, s) && Built(f, g, keys, owner, t, s, names) == Some(c)
    ensures Built(f, g, keys, owner, t, Projected(join, c, s), names) == Some(c)
  {
    BuiltParts(f, g, keys, owner, t, s, names, c);
    SystemDraftsIn(t);
    BuiltIsSettled(f, SystemDrafts(t), s, c.exclusions);
    ProjectionUndone(f, g, join, keys, owner, t, s, names, c);
  }

  /** And it does not when such a bypass carries a reason: the reason is lost. */
  lemma ReasonIsLost(f: Cleanup, g: RuleText, join: seq<string> -> string, keys: set<string>, owner: (string, string),
                     t: Template, s: Settings, names: seq<string>, c: Configuration, j: nat)
    requires forall i :: 0 <= i < |names| ==> names[i] in t.setup
    requires Idempotent(f) && PlainNames(f) && Reparses(f, g, join) && f.trim("") == "" && Built(f, g, keys, owner, t, s, names) == Some(c)
    requires j < |c.exclusions| && Tag(c.exclusions[j]) == 1 && c.exclusions[j].reason != ""
    ensures Built(f, g, keys, owner, t, Projected(join, c, s), names) != Some(c)
  {
    ProjectionUndone(f, g, join, keys, owner, t, s, names, c);
  }

  /** Whatever the settings, a second round of projecting and building changes nothing more. */
  lemma SettingsStabilise(f: Cleanup, g: RuleText, join: seq<string> -> string, keys: set<string>, owner: (string, string),
                          t: Template, s: Settings, names: seq<string>, c: Configuration, d: Configuration)
    requires forall i :: 0 <= i < |names| ==> names[i] in t.setup
    requires Idempotent(f) && PlainNames(f) && Reparses(f, g, join)
    requires Built(f, g, keys, owner, t, s, names) == Some(c)
    requires Built(f, g, keys, owner, t, Projected(join, c, s), names) == Some(d)
    ensures Built(f, g, keys, owner, t, Projected(join, d, Projected(join, c, s)), names) == Some(d)
  {
    BuiltParts(f, g, keys, owner, t, s, names, c);
    var r := Projected(join, c, s);
    forall i: nat | i < |r.exclusions| ensures !IsIp(CleanExclusion(f)(r.exclusions[i])) && !IsPath(CleanExclusion(f)(r.exclusions[i])) {
      NoSinglesLeft(f, SystemDrafts(t) + EnterpriseDrafts(s), c.exclusions, i);
    }
    SettingsFixpoint(f, g, join, keys, owner, t, r, names, d);
  }
}
