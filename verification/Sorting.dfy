/** sort.SliceStable, as a stable insertion, and the facts about it the other modules need. */
module Sorting {

  ghost predicate TotalPreorder<T(!new)>(le: (T, T) -> bool) {
    && (forall x, y :: le(x, y) || le(y, x))
    && (forall x, y, z :: le(x, y) && le(y, z) ==> le(x, z))
  }

  ghost predicate Sorted<T>(le: (T, T) -> bool, s: seq<T>) {
    forall i, j :: 0 <= i < j < |s| ==> le(s[i], s[j])
  }

  function Insert<T>(le: (T, T) -> bool, s: seq<T>, x: T): (r: seq<T>)
    ensures |r| == |s| + 1
  {
    if s == [] || le(s[|s| - 1], x) then s + [x]
    else Insert(le, s[..|s| - 1], x) + [s[|s| - 1]]
  }

  function Sort<T>(le: (T, T) -> bool, s: seq<T>): (r: seq<T>)
    ensures |r| == |s|
  {
    if s == [] then [] else Insert(le, Sort(le, s[..|s| - 1]), s[|s| - 1])
  }

  lemma {:induction false} InsertElements<T>(le: (T, T) -> bool, s: seq<T>, x: T)
    ensures multiset(Insert(le, s, x)) == multiset(s) + multiset{x}
  {
    if s != [] && !le(s[|s| - 1], x) {
      InsertElements(le, s[..|s| - 1], x);
      assert s == s[..|s| - 1] + [s[|s| - 1]];
    }
  }

  lemma {:induction false} SortElements<T>(le: (T, T) -> bool, s: seq<T>)
    ensures multiset(Sort(le, s)) == multiset(s)
  {
    if s != [] {
      SortElements(le, s[..|s| - 1]);
      InsertElements(le, Sort(le, s[..|s| - 1]), s[|s| - 1]);
      assert s == s[..|s| - 1] + [s[|s| - 1]];
    }
  }

  lemma InMultiset<T>(a: seq<T>, b: seq<T>, x: T)
    requires multiset(a) == multiset(b)
    ensures x in a <==> x in b
  {
    assert x in a <==> x in multiset(a);
  }

  lemma {:induction false} InsertSorted<T(!new)>(le: (T, T) -> bool, s: seq<T>, x: T)
    requires TotalPreorder(le) && Sorted(le, s)
    ensures Sorted(le, Insert(le, s, x))
  {
    if s == [] {
    } else if le(s[|s| - 1], x) {
      SnocSorted(le, s, x);
    } else {
      var front, last := s[..|s| - 1], s[|s| - 1];
      InsertSorted(le, front, x);
      var r := Insert(le, front, x);
      forall y | y in r ensures le(y, last) {
        InsertElements(le, front, x);
        InMultiset(r, front + [x], y);
      }
      SnocSorted(le, r, last);
    }
  }

  lemma SnocSorted<T(!new)>(le: (T, T) -> bool, s: seq<T>, x: T)
    requires TotalPreorder(le) && Sorted(le, s)
    requires (s != [] && le(s[|s| - 1], x)) || (forall y :: y in s ==> le(y, x))
    ensures Sorted(le, s + [x])
  {
    forall i | 0 <= i < |s| ensures le(s[i], x) {
      if s != [] && le(s[|s| - 1], x) {
        assert i == |s| - 1 || le(s[i], s[|s| - 1]);
      }
    }
  }

  lemma {:induction false} SortSorted<T(!new)>(le: (T, T) -> bool, s: seq<T>)
    requires TotalPreorder(le)
    ensures Sorted(le, Sort(le, s))
  {
    if s != [] {
      SortSorted(le, s[..|s| - 1]);
      InsertSorted(le, Sort(le, s[..|s| - 1]), s[|s| - 1]);
    }
  }

  /** A sorted list is left as it is. */
  lemma {:induction false} SortOfSorted<T>(le: (T, T) -> bool, s: seq<T>)
    requires Sorted(le, s)
    ensures Sort(le, s) == s
  {
    if s != [] {
      var front := s[..|s| - 1];
      SortOfSorted(le, front);
      assert s == front + [s[|s| - 1]];
      assert front == [] || front[|front| - 1] == s[|s| - 2];
    }
  }

  /** Head of an insertion: the new element goes first only when it is strictly smaller. */
  lemma {:induction false} InsertHead<T(!new)>(le: (T, T) -> bool, s: seq<T>, x: T)
    requires TotalPreorder(le) && Sorted(le, s)
    ensures Insert(le, s, x)[0] == if s == [] || !le(s[0], x) then x else s[0]
  {
    if s == [] {
    } else if le(s[|s| - 1], x) {
      assert le(s[0], s[|s| - 1]) || |s| == 1;
    } else {
      InsertHead(le, s[..|s| - 1], x);
    }
  }

  /** A stable sort puts first the earliest of the least elements. */
  lemma {:induction false} SortHead<T(!new)>(le: (T, T) -> bool, s: seq<T>) returns (at: nat)
    requires TotalPreorder(le) && s != []
    ensures at < |s| && Sort(le, s)[0] == s[at]
    ensures forall j :: 0 <= j < |s| ==> le(s[at], s[j])
    ensures forall j :: 0 <= j < at ==> !le(s[j], s[at])
  {
    var front, last := s[..|s| - 1], s[|s| - 1];
    SortSorted(le, front);
    InsertHead(le, Sort(le, front), last);
    if front == [] {
      at := 0;
    } else {
      at := SortHead(le, front);
      if !le(Sort(le, front)[0], last) {
        at := |front|;
      }
    }
  }

  lemma GreatestLast<T(!new)>(le: (T, T) -> bool, s: seq<T>, x: T)
    requires TotalPreorder(le) && Sorted(le, s) && x in s
    ensures le(x, s[|s| - 1])
  {
    var i :| 0 <= i < |s| && s[i] == x;
    assert i == |s| - 1 || le(s[i], s[|s| - 1]);
  }

  lemma DropLast<T>(a: seq<T>, b: seq<T>)
    requires a != [] && b != [] && multiset(a) == multiset(b) && a[|a| - 1] == b[|b| - 1]
    ensures multiset(a[..|a| - 1]) == multiset(b[..|b| - 1])
  {
    var x := a[|a| - 1];
    assert a == a[..|a| - 1] + [x] && b == b[..|b| - 1] + [x];
    assert multiset(a[..|a| - 1]) == multiset(a) - multiset{x};
  }

  /** With no two equivalent elements the sorted arrangement is unique. */
  lemma {:induction false} SortedUnique<T(!new)>(le: (T, T) -> bool, a: seq<T>, b: seq<T>)
    requires TotalPreorder(le) && Sorted(le, a) && Sorted(le, b) && multiset(a) == multiset(b)
    requires forall x, y :: x in a && y in a && le(x, y) && le(y, x) ==> x == y
    ensures a == b
  {
    assert |a| == |multiset(a)| && |b| == |multiset(b)|;
    if a != [] {
      var x, y := a[|a| - 1], b[|b| - 1];
      InMultiset(a, b, x);
      InMultiset(a, b, y);
      GreatestLast(le, a, y);
      GreatestLast(le, b, x);
      assert x == y;
      DropLast(a, b);
      SortedUnique(le, a[..|a| - 1], b[..|b| - 1]);
      assert a == a[..|a| - 1] + [x] && b == b[..|b| - 1] + [x];
    }
  }

  lemma SortKeeps<T>(le: (T, T) -> bool, s: seq<T>)
    ensures forall x :: x in Sort(le, s) <==> x in s
  {
    SortElements(le, s);
    forall x ensures x in Sort(le, s) <==> x in s { InMultiset(Sort(le, s), s, x); }
  }

  /** A strictly ordered arrangement of a list is what sorting it gives. */
  lemma SortIs<T(!new)>(le: (T, T) -> bool, s: seq<T>, t: seq<T>)
    requires TotalPreorder(le) && multiset(s) == multiset(t)
    requires forall i, j :: 0 <= i < j < |t| ==> le(t[i], t[j]) && !le(t[j], t[i])
    ensures Sort(le, s) == t
  {
    SortElements(le, s);
    SortSorted(le, s);
    forall x, y | x in t && y in t && le(x, y) && le(y, x) ensures x == y {
      var i :| 0 <= i < |t| && t[i] == x;
      var j :| 0 <= j < |t| && t[j] == y;
      assert !(i < j) && !(j < i);
    }
    SortedUnique(le, t, Sort(le, s));
  }
}
