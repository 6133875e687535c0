/** Uniqueness, order and statistics of the CRS rule index (internal/crsindex/index.go). */
module CrsIndex {
  import opened Prelude
  import opened Sorting

  /** A rule with the columns the index sorts and counts by. */
  datatype Entry = Entry(id: int, file: string, phase: string, level: int)

  datatype Index = Index(rules: seq<Entry>, byPhase: map<string, nat>, byLevel: map<int, nat>)

  function Flat(files: seq<seq<Entry>>): seq<Entry> {
    if files == [] then [] else Flat(files[..|files| - 1]) + files[|files| - 1]
  }

  predicate Distinct(rules: seq<Entry>) { forall i, j :: 0 <= i < j < |rules| ==> rules[i].id != rules[j].id }

  predicate Ascending(rules: seq<Entry>) { forall i, j :: 0 <= i < j < |rules| ==> rules[i].id < rules[j].id }

  // ---------------------------------------------------------------- counting

  /** How often each key occurs. */
  function Tally<K>(keys: seq<K>): map<K, nat> {
    if keys == [] then map[] else Increment(Tally(keys[..|keys| - 1]), keys[|keys| - 1])
  }

  function Increment<K>(m: map<K, nat>, key: K): map<K, nat> { m[key := (if key in m then m[key] else 0) + 1] }

  ghost function Sum<K>(m: map<K, nat>): nat
    decreases |m|
  {
    if m == map[] then 0
    else
      var key :| key in m;
      assert |m - {key}| < |m| by { Smaller(m, key); }
      m[key] + Sum(m - {key})
  }

  lemma Smaller<K>(m: map<K, nat>, key: K)
    requires key in m
    ensures |m - {key}| == |m| - 1
  {
    assert (m - {key}).Keys == m.Keys - {key};
    assert |m| == |m.Keys| && |m - {key}| == |(m - {key}).Keys|;
  }

  /** A sum does not depend on which key is taken first. */
  lemma {:induction false} SumAt<K>(m: map<K, nat>, key: K)
    requires key in m
    ensures Sum(m) == m[key] + Sum(m - {key})
    decreases |m|
  {
    var first :| first in m && Sum(m) == m[first] + Sum(m - {first});
    if first != key {
      Smaller(m, first);
      Smaller(m, key);
      SumAt(m - {first}, key);
      SumAt(m - {key}, first);
      assert m - {first} - {key} == m - {key} - {first};
    }
  }

  lemma SumIncrement<K>(m: map<K, nat>, key: K)
    ensures Sum(Increment(m, key)) == Sum(m) + 1
  {
    var n := Increment(m, key);
    SumAt(n, key);
    assert n - {key} == m - {key};
    if key in m { SumAt(m, key); } else { assert m - {key} == m; }
  }

  /** A tally counts every occurrence of its keys, and sums to the number of all. */
  lemma {:induction false} TallyCounts<K>(keys: seq<K>)
    ensures Sum(Tally(keys)) == |keys|
    ensures forall key :: (key in Tally(keys) <==> key in keys) && (key in keys ==> Tally(keys)[key] == multiset(keys)[key])
  {
    if keys != [] {
      var front, last := keys[..|keys| - 1], keys[|keys| - 1];
      TallyCounts(front);
      SumIncrement(Tally(front), last);
      assert keys == front + [last];
    }
  }

  function Phases(rules: seq<Entry>): seq<string> { seq(|rules|, i requires 0 <= i < |rules| => rules[i].phase) }

  function Levels(rules: seq<Entry>): seq<int> { seq(|rules|, i requires 0 <= i < |rules| => rules[i].level) }

  method Statistics(rules: seq<Entry>) returns (byPhase: map<string, nat>, byLevel: map<int, nat>)
    ensures byPhase == Tally(Phases(rules)) && byLevel == Tally(Levels(rules))
  {
    byPhase, byLevel := map[], map[];
    var i := 0;
    while i < |rules|
      invariant 0 <= i <= |rules|
      invariant byPhase == Tally(Phases(rules[..i])) && byLevel == Tally(Levels(rules[..i]))
    {
      assert Phases(rules[..i + 1])[..i] == Phases(rules[..i]) && Levels(rules[..i + 1])[..i] == Levels(rules[..i]);
      byPhase, byLevel := Increment(byPhase, rules[i].phase), Increment(byLevel, rules[i].level);
      i := i + 1;
    }
    assert rules[..i] == rules;
  }

  // ---------------------------------------------------------------- the index

  function IndexOrder(fileOrder: (string, string) -> bool): (Entry, Entry) -> bool {
    (x: Entry, y: Entry) => if x.id == y.id then fileOrder(x.file, y.file) else x.id < y.id
  }

  lemma IndexOrderIsOrder(fileOrder: (string, string) -> bool)
    requires TotalPreorder(fileOrder)
    ensures TotalPreorder(IndexOrder(fileOrder))
  {
    var le := IndexOrder(fileOrder);
    forall x, y ensures le(x, y) || le(y, x) {
      assert fileOrder(x.file, y.file) || fileOrder(y.file, x.file);
    }
    forall x, y, z | le(x, y) && le(y, z) ensures le(x, z) {
      if x.id == z.id {
        assert fileOrder(x.file, y.file) && fileOrder(y.file, z.file);
      }
    }
  }

  /** Sorting rules with distinct ids gives them in strictly ascending order. */
  lemma SortAscending(fileOrder: (string, string) -> bool, rules: seq<Entry>)
    requires TotalPreorder(fileOrder) && Distinct(rules)
    ensures multiset(Sort(IndexOrder(fileOrder), rules)) == multiset(rules) && Ascending(Sort(IndexOrder(fileOrder), rules))
  {
    var sorted := Sort(IndexOrder(fileOrder), rules);
    IndexOrderIsOrder(fileOrder);
    SortElements(IndexOrder(fileOrder), rules);
    SortSorted(IndexOrder(fileOrder), rules);
    forall i, j | 0 <= i < j < |sorted| ensures sorted[i].id < sorted[j].id {
      StillDistinct(rules, sorted, i, j);
      assert IndexOrder(fileOrder)(sorted[i], sorted[j]);
    }
  }

  lemma StillDistinct(rules: seq<Entry>, sorted: seq<Entry>, i: nat, j: nat)
    requires Distinct(rules) && multiset(rules) == multiset(sorted) && i < j < |sorted|
    ensures sorted[i].id != sorted[j].id
  {
    if sorted[i].id == sorted[j].id {
      InMultiset(rules, sorted, sorted[i]);
      InMultiset(rules, sorted, sorted[j]);
      assert sorted[i] == sorted[j];
      assert sorted == sorted[..i] + [sorted[i]] + sorted[i + 1..j] + [sorted[j]] + sorted[j + 1..];
      assert multiset(sorted)[sorted[i]] >= 2;
      OnlyOnce(rules, sorted[i]);
    }
  }

  lemma {:induction false} OnlyOnce(rules: seq<Entry>, x: Entry)
    requires Distinct(rules)
    ensures multiset(rules)[x] <= 1
  {
    if rules != [] {
      var front := rules[..|rules| - 1];
      OnlyOnce(front, x);
      assert rules == front + [rules[|rules| - 1]];
      if rules[|rules| - 1] == x { assert x !in front; }
    }
  }

  /** Appends the rules of one file unless an id was seen before. */
  method AddFile(rules: seq<Entry>, seen: set<int>, file: seq<Entry>) returns (ok: bool, all: seq<Entry>, now: set<int>)
    requires Distinct(rules) && forall id :: id in seen <==> exists k :: 0 <= k < |rules| && rules[k].id == id
    ensures ok <==> Distinct(rules + file)
    ensures ok ==> all == rules + file && forall id :: id in now <==> exists k :: 0 <= k < |all| && all[k].id == id
  {
    all, now := rules, seen;
    var i := 0;
    while i < |file|
      invariant 0 <= i <= |file| && all == rules + file[..i] && Distinct(all)
      invariant forall id :: id in now <==> exists k :: 0 <= k < |all| && all[k].id == id
    {
      if file[i].id in now {
        var k :| 0 <= k < |all| && all[k].id == file[i].id;
        assert (rules + file)[k] == all[k] && (rules + file)[|rules| + i] == file[i];
        return false, all, now;
      }
      ghost var was := all;
      all, now := all + [file[i]], now + {file[i].id};
      assert all[|was|] == file[i];
      forall id ensures id in now <==> exists k :: 0 <= k < |all| && all[k].id == id {
        if id in now && id != file[i].id {
          var k :| 0 <= k < |was| && was[k].id == id;
          assert all[k].id == id;
        }
      }
      i := i + 1;
    }
    assert file[..i] == file;
    ok := true;
  }

  /** The index of the parsed files: all their rules by ascending id, with counts that add up; it fails
      exactly when an id occurs twice or there is no rule. */
  method BuildIndex(fileOrder: (string, string) -> bool, files: seq<seq<Entry>>) returns (r: Option<Index>)
    requires TotalPreorder(fileOrder)
    ensures r.Some? <==> Distinct(Flat(files)) && Flat(files) != []
    ensures r.Some? ==> multiset(r.value.rules) == multiset(Flat(files)) && Ascending(r.value.rules)
    ensures r.Some? ==> r.value.byPhase == Tally(Phases(r.value.rules)) && r.value.byLevel == Tally(Levels(r.value.rules))
    ensures r.Some? ==> Sum(r.value.byPhase) == |r.value.rules| && Sum(r.value.byLevel) == |r.value.rules|
  {
    var rules: seq<Entry>, seen: set<int> := [], {};
    var i := 0;
    while i < |files|
      invariant 0 <= i <= |files| && rules == Flat(files[..i]) && Distinct(rules)
      invariant forall id :: id in seen <==> exists k :: 0 <= k < |rules| && rules[k].id == id
    {
      var ok, all, now := AddFile(rules, seen, files[i]);
      assert files[..i + 1][..i] == files[..i];
      if !ok {
        FlatPrefix(files, i + 1);
        return None;
      }
      rules, seen := all, now;
      i := i + 1;
    }
    assert files[..i] == files;
    if rules == [] { return None; }
    var sorted := Sort(IndexOrder(fileOrder), rules);
    SortAscending(fileOrder, rules);
    var byPhase, byLevel := Statistics(sorted);
    TallyCounts(Phases(sorted));
    TallyCounts(Levels(sorted));
    return Some(Index(sorted, byPhase, byLevel));
  }

  lemma {:induction false} FlatPrefix(files: seq<seq<Entry>>, n: nat)
    requires n <= |files|
    ensures Flat(files[..n]) <= Flat(files)
    decreases |files|
  {
    if n < |files| {
      FlatPrefix(files[..|files| - 1], n);
      assert files[..|files| - 1][..n] == files[..n];
    } else {
      assert files[..n] == files;
    }
  }
}
