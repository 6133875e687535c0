/** Numbered lists with a system part in front: what removing and appending keep
    (internal/manager/policy_mutation.go, internal/manager/policy_operator_handlers.go). */
module PolicyLists {
  import opened Policy
  import opened PolicyComposition

  function Renumber<T>(place: (T, int) -> T, s: seq<T>): (r: seq<T>)
    ensures |r| == |s| && forall i :: 0 <= i < |s| ==> r[i] == place(s[i], i)
  {
    seq(|s|, i requires 0 <= i < |s| => place(s[i], i))
  }

  /** Every item is numbered by its index. */
  predicate InOrder<T(==)>(place: (T, int) -> T, s: seq<T>) { forall i :: 0 <= i < |s| ==> place(s[i], i) == s[i] }

  predicate Front<T>(system: T -> bool, s: seq<T>) { forall i, j :: 0 <= i < j < |s| && system(s[j]) ==> system(s[i]) }

  /** Numbering an item changes neither its layer nor anything a later numbering keeps. */
  ghost predicate Numbers<T(!new)>(place: (T, int) -> T, system: T -> bool) {
    && (forall x, i :: system(place(x, i)) == system(x))
    && (forall x, i, j :: place(place(x, i), j) == place(x, j))
  }

  /** Drops items and numbers the rest, as the delete and expiry loops do. */
  method Remove<T>(place: (T, int) -> T, keep: T -> bool, s: seq<T>) returns (next: seq<T>)
    ensures next == Renumber(place, Filter(keep, s))
  {
    next := [];
    for i := 0 to |s|
      invariant next == Renumber(place, Filter(keep, s[..i]))
    {
      assert s[..i + 1][..i] == s[..i];
      if keep(s[i]) {
        ghost var front := Filter(keep, s[..i]);
        assert Renumber(place, front + [s[i]]) == Renumber(place, front) + [place(s[i], |front|)];
        next := next + [place(s[i], |next|)];
      }
    }
    assert s[..|s|] == s;
  }

  /** The same in the slice itself: writes never overtake reads. */
  method RemoveInPlace<T>(place: (T, int) -> T, keep: T -> bool, items: array<T>) returns (count: nat)
    modifies items
    ensures count <= items.Length && items[..count] == Renumber(place, Filter(keep, old(items[..])))
  {
    ghost var was := items[..];
    count := 0;
    for i := 0 to items.Length
      invariant count <= i
      invariant forall j :: i <= j < items.Length ==> items[j] == was[j]
      invariant items[..count] == Renumber(place, Filter(keep, was[..i]))
    {
      assert was[..i + 1][..i] == was[..i];
      if keep(items[i]) {
        ghost var front := Filter(keep, was[..i]);
        assert Renumber(place, front + [was[i]]) == Renumber(place, front) + [place(was[i], |front|)];
        items[count] := place(items[i], count);
        count := count + 1;
      }
    }
    assert was[..items.Length] == was;
  }

  /** Length of the system part. */
  lemma {:induction false} FrontLength<T>(system: T -> bool, s: seq<T>) returns (n: nat)
    requires Front(system, s)
    ensures n <= |s| && (forall i :: 0 <= i < |s| ==> (system(s[i]) <==> i < n)) && Filter(system, s) == s[..n]
  {
    if s == [] {
      n := 0;
    } else if system(s[|s| - 1]) {
      n := |s|;
      FilterAll(system, s);
    } else {
      n := FrontLength(system, s[..|s| - 1]);
      assert s[..|s| - 1][..n] == s[..n];
    }
  }

  lemma {:induction false} FilterTwice<T>(system: T -> bool, keep: T -> bool, s: seq<T>)
    requires forall i :: 0 <= i < |s| && system(s[i]) ==> keep(s[i])
    ensures Filter(system, Filter(keep, s)) == Filter(system, s)
  {
    if s != [] {
      var front, last := s[..|s| - 1], s[|s| - 1];
      FilterTwice(system, keep, front);
      FilterAppend(system, Filter(keep, front), [last]);
      FilterOne(system, last);
    }
  }

  lemma FilterOne<T>(keep: T -> bool, x: T)
    ensures Filter(keep, [x]) == if keep(x) then [x] else []
  {
    assert [x][..0] == [];
    assert Filter(keep, [x][..0]) == [];
  }

  lemma {:induction false} FilterFront<T>(system: T -> bool, keep: T -> bool, s: seq<T>)
    requires Front(system, s)
    ensures Front(system, Filter(keep, s))
  {
    if s != [] {
      var front, last := s[..|s| - 1], s[|s| - 1];
      FilterFront(system, keep, front);
      if keep(last) && system(last) {
        var kept := Filter(keep, front);
        forall i | 0 <= i < |kept| ensures system(kept[i]) {
          FilterMember(keep, front, i);
        }
      }
    }
  }

  lemma {:induction false} FilterMember<T>(keep: T -> bool, s: seq<T>, i: nat)
    requires i < |Filter(keep, s)|
    ensures Filter(keep, s)[i] in s && keep(Filter(keep, s)[i])
  {
    var front := s[..|s| - 1];
    if i < |Filter(keep, front)| { FilterMember(keep, front, i); }
  }

  lemma SameFront<T>(system: T -> bool, a: seq<T>, b: seq<T>, p: nat, m: nat)
    requires |a| == |b| && p <= |a| && m <= |b|
    requires forall i :: 0 <= i < |a| ==> system(a[i]) == system(b[i])
    requires forall i :: 0 <= i < |a| ==> (system(a[i]) <==> i < p)
    requires forall i :: 0 <= i < |b| ==> (system(b[i]) <==> i < m)
    ensures p == m
  {
    assert p < |a| ==> !system(a[p]) && !system(b[p]);
    assert m < |b| ==> !system(b[m]) && !system(a[m]);
  }

  /** Removing items of the other layer keeps the numbering, the system part and its place in front. */
  lemma RemoveKeeps<T(!new)>(place: (T, int) -> T, system: T -> bool, keep: T -> bool, s: seq<T>)
    requires Numbers(place, system) && InOrder(place, s) && Front(system, s)
    requires forall i :: 0 <= i < |s| && system(s[i]) ==> keep(s[i])
    ensures var r := Renumber(place, Filter(keep, s));
            InOrder(place, r) && Front(system, r) && Filter(system, r) == Filter(system, s)
  {
    var kept := Filter(keep, s);
    var r := Renumber(place, kept);
    FilterTwice(system, keep, s);
    FilterFront(system, keep, s);
    var n := FrontLength(system, s);
    var m := FrontLength(system, kept);
    assert forall i :: 0 <= i < |r| ==> system(r[i]) == system(kept[i]);
    var p := FrontLength(system, r);
    SameFront(system, r, kept, p, m);
    assert kept[..m] == s[..n];
    forall i | 0 <= i < m ensures r[i] == s[i] {
      assert kept[i] == kept[..m][i] == s[..n][i];
    }
    assert r[..m] == s[..n];
  }

  /** Appending an item of the other layer keeps them too. */
  lemma AppendKeeps<T(!new)>(place: (T, int) -> T, system: T -> bool, s: seq<T>, x: T)
    requires Numbers(place, system) && InOrder(place, s) && Front(system, s) && !system(x)
    ensures var r := s + [place(x, |s|)];
            InOrder(place, r) && Front(system, r) && Filter(system, r) == Filter(system, s)
  {
    var r := s + [place(x, |s|)];
    assert r[..|s|] == s;
    assert !system(place(x, |s|));
  }

  /** Cleaning and blanking items change neither layer nor number, and commute. */
  ghost predicate Harmless<T(!new)>(place: (T, int) -> T, system: T -> bool, clean: T -> T, blank: T -> T) {
    && (forall x :: system(clean(x)) == system(x)) && (forall x :: system(blank(x)) == system(x))
    && (forall x :: blank(clean(x)) == clean(blank(x))) && (forall x :: blank(blank(x)) == blank(x))
    && (forall x, i :: place(x, i) == x ==> place(blank(clean(x)), i) == blank(clean(x)))
  }

  /** A cleaned list keeps its numbering and its system part, when the items of that part are clean already. */
  lemma CleanKeeps<T(!new)>(place: (T, int) -> T, system: T -> bool, clean: T -> T, blank: T -> T, layer: seq<T>, s: seq<T>)
    requires Harmless(place, system, clean, blank) && InOrder(place, s) && Front(system, s) && Map(blank, Filter(system, s)) == layer
    requires forall i :: 0 <= i < |layer| ==> clean(layer[i]) == layer[i]
    ensures var r := Map(blank, Map(clean, s)); InOrder(place, r) && Front(system, r) && Map(blank, Filter(system, r)) == layer
  {
    var r := Map(blank, Map(clean, s));
    forall i | 0 <= i < |r| ensures place(r[i], i) == r[i] && system(r[i]) == system(s[i]) { assert place(s[i], i) == s[i]; }
    FilterMap(blank, system, Map(clean, s));
    FilterMap(clean, system, s);
    var own := Filter(system, s);
    forall i | 0 <= i < |own| ensures blank(blank(clean(own[i]))) == layer[i] {
      assert layer[i] == blank(own[i]) && clean(layer[i]) == layer[i];
    }
    assert Map(blank, Map(blank, Map(clean, own))) == layer;
  }
}
