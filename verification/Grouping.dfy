/** Runs of elements: a group starts at an element that is not skipped and goes on while its last element
    asks for more. Logical directives group physical lines, rules group chained directives. */
module Grouping {

  datatype Range = Range(from: nat, end: nat)

  /** End of the group whose elements so far end with s[i - 1]. */
  function EndFrom<T>(s: seq<T>, i: nat, more: T -> bool): (e: nat)
    requires 0 < i <= |s|
    ensures i <= e <= |s|
    decreases |s| - i
  {
    if more(s[i - 1]) && i < |s| then EndFrom(s, i + 1, more) else i
  }

  function Groups<T>(s: seq<T>, i: nat, skip: T -> bool, more: T -> bool): seq<Range>
    requires i <= |s|
    decreases |s| - i
  {
    if i == |s| then []
    else if skip(s[i]) then Groups(s, i + 1, skip, more)
    else
      var e := EndFrom(s, i + 1, more);
      [Range(i, e)] + Groups(s, e, skip, more)
  }

  lemma {:induction false} EndFromIs<T>(s: seq<T>, i: nat, more: T -> bool)
    requires 0 < i <= |s|
    ensures var e := EndFrom(s, i, more);
            && (forall k :: i - 1 <= k < e - 1 ==> more(s[k]))
            && (e == |s| || !more(s[e - 1]))
    decreases |s| - i
  {
    if more(s[i - 1]) && i < |s| { EndFromIs(s, i + 1, more); }
  }

  predicate Inside(k: int, r: Range) { r.from <= k < r.end }

  /** Groups are disjoint and ordered; each starts at an element that is not skipped, goes on exactly while
      there is more, and everything outside the groups is skipped. */
  ghost predicate Partition<T>(s: seq<T>, i: nat, skip: T -> bool, more: T -> bool, groups: seq<Range>) {
    && (forall j :: 0 <= j < |groups| ==> WellFormed(s, i, skip, more, groups[j]))
    && Ordered(groups)
    && (forall k: nat :: i <= k < |s| ==> skip(s[k]) || InSome(k, groups))
  }

  ghost predicate Ordered(groups: seq<Range>) {
    forall j, k :: 0 <= j < k < |groups| ==> groups[j].end <= groups[k].from
  }

  ghost predicate InSome(k: nat, groups: seq<Range>) { exists j :: 0 <= j < |groups| && Inside(k, groups[j]) }

  ghost predicate WellFormed<T>(s: seq<T>, i: nat, skip: T -> bool, more: T -> bool, r: Range) {
    && i <= r.from < r.end <= |s| && !skip(s[r.from])
    && (forall k :: r.from <= k < r.end - 1 ==> more(s[k]))
    && (r.end == |s| || !more(s[r.end - 1]))
  }

  lemma GroupFrom<T>(s: seq<T>, i: nat, skip: T -> bool, more: T -> bool)
    requires i < |s| && !skip(s[i])
    ensures WellFormed(s, i, skip, more, Range(i, EndFrom(s, i + 1, more)))
  {
    var e := EndFrom(s, i + 1, more);
    EndFromIs(s, i + 1, more);
  }

  lemma InSomeCons(k: nat, r: Range, rest: seq<Range>)
    ensures InSome(k, [r] + rest) <==> Inside(k, r) || InSome(k, rest)
  {
    var groups := [r] + rest;
    if Inside(k, r) { assert Inside(k, groups[0]); }
    if InSome(k, rest) {
      var j :| 0 <= j < |rest| && Inside(k, rest[j]);
      assert Inside(k, groups[j + 1]);
    }
  }

  lemma OrderedCons(r: Range, rest: seq<Range>)
    requires Ordered(rest) && forall j :: 0 <= j < |rest| ==> r.end <= rest[j].from
    ensures Ordered([r] + rest)
  {
    var groups := [r] + rest;
    forall j, k | 0 <= j < k < |groups| ensures groups[j].end <= groups[k].from {
      assert groups[k] == rest[k - 1];
      if j > 0 { assert groups[j] == rest[j - 1]; }
    }
  }

  lemma PartitionCons<T>(s: seq<T>, i: nat, e: nat, skip: T -> bool, more: T -> bool, rest: seq<Range>)
    requires WellFormed(s, i, skip, more, Range(i, e)) && Partition(s, e, skip, more, rest)
    ensures Partition(s, i, skip, more, [Range(i, e)] + rest)
  {
    var groups := [Range(i, e)] + rest;
    OrderedCons(Range(i, e), rest);
    forall k: nat | i <= k < |s| ensures skip(s[k]) || InSome(k, groups) { InSomeCons(k, Range(i, e), rest); }
    forall j | 0 <= j < |groups| ensures WellFormed(s, i, skip, more, groups[j]) {
      if j > 0 { assert groups[j] == rest[j - 1] && WellFormed(s, e, skip, more, rest[j - 1]); }
    }
  }

  lemma {:induction false} GroupsPartition<T>(s: seq<T>, i: nat, skip: T -> bool, more: T -> bool)
    requires i <= |s|
    ensures Partition(s, i, skip, more, Groups(s, i, skip, more))
    decreases |s| - i
  {
    if i < |s| && skip(s[i]) {
      GroupsPartition(s, i + 1, skip, more);
    } else if i < |s| {
      var e := EndFrom(s, i + 1, more);
      GroupFrom(s, i, skip, more);
      GroupsPartition(s, e, skip, more);
      PartitionCons(s, i, e, skip, more, Groups(s, e, skip, more));
    }
  }
}
