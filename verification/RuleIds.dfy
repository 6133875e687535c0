/** The least free rule id of a range, as all allocators look for it
    (internal/manager/policy_mutation.go, internal/manager/policy_authoring_handlers.go). */
module RuleIds {
  import opened Prelude

  /** How ids are found in rule texts: all of them, and the first. */
  datatype IdFinder = IdFinder(all: string -> set<int>, first: string -> Option<int>)

  function LeastFree(used: set<int>, from: nat, max: nat): Option<nat>
    decreases max + 1 - from
  {
    if from > max then None else if from in used then LeastFree(used, from + 1, max) else Some(from)
  }

  /** It is in range and unused with none free below it; there is none exactly when all are used. */
  lemma {:induction false} LeastFreeIs(used: set<int>, from: nat, max: nat)
    ensures match LeastFree(used, from, max)
            case Some(id) => from <= id <= max && id !in used && forall k :: from <= k < id ==> k in used
            case None => forall k :: from <= k <= max ==> k in used
    decreases max + 1 - from
  {
    if from <= max && from in used { LeastFreeIs(used, from + 1, max); }
  }

  /** Only ids at or above the start matter. */
  lemma {:induction false} LeastFreeSame(used: set<int>, given: set<int>, from: nat, max: nat)
    requires forall k :: k >= from ==> (k in used <==> k in given)
    ensures LeastFree(used, from, max) == LeastFree(given, from, max)
    decreases max + 1 - from
  {
    if from <= max && from in used { LeastFreeSame(used, given, from + 1, max); }
  }
}
