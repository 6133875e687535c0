/** Activation of a policy bundle on the Agent: stage, publish by rename, switch the active symlink,
    test and reload, roll back. Every file operation and every reload may fail, and the process may
    stop between any two of them (internal/agent/policy.go). */
module Activation {
  import opened Prelude

  type Path = string
  type Files = map<string, string>

  datatype Node = Dir(files: Files) | Link(target: Path) | Plain

  type Tree = map<Path, Node>

  /** The paths of one activation; a revision may be named like the directory kept from before links. */
  datatype Paths = Paths(active: Path, next: Path, staging: Path, revision: Path, legacy: Path) {
    predicate Distinct() {
      && active != next && active != staging && active != revision && active != legacy
      && next != staging && next != revision && next != legacy
      && staging != revision && staging != legacy
    }
  }

  const COMPATIBILITY := "# Compatibility entry for rollback packages. Managed by mwaf-agent.\n"

  /** What the staging directory holds once everything is written. */
  function Staged(files: Files, metadata: Files): Files {
    files + metadata + map["main.conf" := COMPATIBILITY]
  }

  ghost predicate SameElsewhere(a: Tree, b: Tree, changed: set<Path>) {
    forall p :: p !in changed ==> (p in a <==> p in b) && (p in a ==> a[p] == b[p])
  }

  /** rename(2) has a source and replaces a directory by an empty one only, anything else by anything but a directory. */
  predicate Renames(t: Tree, from: Path, onto: Path) {
    from in t && (onto in t ==> if t[from].Dir? then t[onto] == Dir(map[]) else !t[onto].Dir?)
  }

  /** os.Remove leaves a directory that holds files. */
  predicate Removable(t: Tree, path: Path) {
    path in t && t[path].Dir? ==> t[path].files == map[]
  }

  /** What an activation needs of the tree it finds, once the revision directory is published: no directory with files
      under the name of the temporary link, and a link, or a directory that can be moved aside. */
  predicate Activatable(t: Tree, ps: Paths) {
    && (ps.next in t && t[ps.next].Dir? ==> t[ps.next].files == map[])
    && ps.active in t
    && (t[ps.active].Link? || (t[ps.active].Dir? && (ps.legacy in t ==> t[ps.legacy] == Dir(map[]))))
  }

  /** And before: the revision is new, and its name is not taken for the directory moved aside. */
  predicate Ready(t: Tree, ps: Paths) {
    && Activatable(t, ps) && ps.revision !in t
    && (t[ps.active].Dir? ==> ps.legacy != ps.revision)
  }

  /** How `applyBundleFiles` ended. */
  datatype Outcome =
    | Applied               // nil
    | Refused               // error before the link was touched
    | NotSwitched           // activate failed, previous revision restored
    | NotRestored           // activate failed and so did the restore
    | RolledBack            // rejected by configtest or reload, rollback completed
    | RollbackUnloaded      // rolled back, but the previous configuration did not reload
    | StuckOnNew            // rejected, and the link could not be switched back

  /** Results of the configtests and reloads behind each outcome, in order. */
  function Verdicts(outcome: Outcome): seq<bool> {
    match outcome
    case Applied => [true]
    case StuckOnNew => [false]
    case RolledBack => [false, true]
    case RollbackUnloaded => [false, false]
    case _ => []
  }

  ghost function Results(reloads: seq<(Tree, bool)>): seq<bool> {
    seq(|reloads|, i requires 0 <= i < |reloads| => reloads[i].1)
  }

  class Host {
    var tree: Tree
    ghost var faults: nat                   // operations that failed for a reason outside the tree, rejected configurations included
    ghost var history: seq<Tree>            // the tree after every operation so far
    ghost var reloads: seq<(Tree, bool)>    // the tree at every configtest and reload, and its result
    const resolve: Path -> Path             // absolute form of a link target

    // ---------------------------------------------------------------- file operations

    ghost predicate Logged(was: seq<Tree>)
      reads this
    {
      history == was + [tree]
    }

    /** Some operation since failed for a reason outside the tree, or none did and the last one answered `expected`. */
    ghost predicate Answered(before: nat, ok: bool, expected: bool)
      reads this
    {
      before <= faults && (faults == before ==> ok == expected)
    }

    method Attempt() returns (ok: bool)
      modifies this`faults
      ensures faults == if ok then old(faults) else old(faults) + 1
    {
      ok := *;
      if !ok { faults := faults + 1; }
    }

    method MakeTemp(path: Path) returns (ok: bool)
      requires path !in tree
      modifies this`tree, this`history, this`faults
      ensures Logged(old(history)) && Answered(old(faults), ok, true)
      ensures tree == if ok then old(tree)[path := Dir(map[])] else old(tree)
    {
      ok := Attempt();
      if ok { tree := tree[path := Dir(map[])]; }
      history := history + [tree];
    }

    method WriteFile(dir: Path, name: string, content: string) returns (ok: bool)
      requires dir in tree && tree[dir].Dir?
      modifies this`tree, this`history, this`faults
      ensures Logged(old(history)) && Answered(old(faults), ok, true)
      ensures tree == if ok then old(tree)[dir := Dir(old(tree)[dir].files[name := content])] else old(tree)
    {
      ok := Attempt();
      if ok { tree := tree[dir := Dir(tree[dir].files[name := content])]; }
      history := history + [tree];
    }

    method Rename(from: Path, onto: Path) returns (ok: bool)
      requires from != onto
      modifies this`tree, this`history, this`faults
      ensures Logged(old(history)) && Answered(old(faults), ok, Renames(old(tree), from, onto))
      ensures ok ==> Renames(old(tree), from, onto) && tree == (old(tree) - {from})[onto := old(tree)[from]]
      ensures !ok ==> tree == old(tree)
    {
      ok := Attempt();
      if !Renames(tree, from, onto) { ok := false; }
      if ok { tree := (tree - {from})[onto := tree[from]]; }
      history := history + [tree];
    }

    method Symlink(target: Path, path: Path) returns (ok: bool)
      modifies this`tree, this`history, this`faults
      ensures Logged(old(history)) && Answered(old(faults), ok, path !in old(tree))
      ensures tree == if ok then old(tree)[path := Link(target)] else old(tree)
      ensures ok ==> path !in old(tree)
    {
      ok := Attempt();
      if path in tree { ok := false; }
      if ok { tree := tree[path := Link(target)]; }
      history := history + [tree];
    }

    /** os.Remove with its error ignored. */
    method Remove(path: Path)
      modifies this`tree, this`history, this`faults
      ensures Logged(old(history)) && faults >= old(faults)
      ensures tree == old(tree) || tree == old(tree) - {path}
      ensures faults == old(faults) && Removable(old(tree), path) ==> tree == old(tree) - {path}
      ensures !Removable(old(tree), path) ==> tree == old(tree)
    {
      var ok := Attempt();
      if ok && Removable(tree, path) { tree := tree - {path}; }
      history := history + [tree];
    }

    /** os.RemoveAll with its error ignored: it may leave part of the directory behind. */
    method RemoveAll(path: Path)
      modifies this`tree, this`history, this`faults
      ensures Logged(old(history)) && faults >= old(faults)
      ensures SameElsewhere(tree, old(tree), {path})
      ensures faults == old(faults) ==> tree == old(tree) - {path}
    {
      var ok := Attempt();
      if ok {
        tree := tree - {path};
      } else if path in tree && tree[path].Dir? {
        var left: set<string> := *;
        tree := tree[path := Dir(tree[path].files - left)];
      }
      history := history + [tree];
    }

    method TestAndReload() returns (ok: bool)
      modifies this`reloads, this`faults
      ensures reloads == old(reloads) + [(tree, ok)] && Answered(old(faults), ok, true)
      ensures Results(reloads) == Results(old(reloads)) + [ok]
    {
      ok := Attempt();
      reloads := reloads + [(tree, ok)];
    }

    // ---------------------------------------------------------------- staging

    /** Every tree logged since `was` differs from `base` only at `changed`. */
    ghost predicate OnlyTouched(was: seq<Tree>, base: Tree, changed: set<Path>)
      reads this
    {
      && was <= history
      && (forall i :: |was| <= i < |history| ==> SameElsewhere(history[i], base, changed))
      && SameElsewhere(tree, base, changed)
    }

    method WriteAll(dir: Path, files: Files) returns (ok: bool)
      requires dir in tree && tree[dir].Dir?
      modifies this`tree, this`history, this`faults
      ensures OnlyTouched(old(history), old(tree), {dir}) && dir in tree && tree[dir].Dir?
      ensures Answered(old(faults), ok, true)
      ensures ok ==> tree[dir] == Dir(old(tree)[dir].files + files)
    {
      var names := files.Keys;
      ghost var done: Files := map[];
      while names != {}
        invariant names <= files.Keys && done == files - names
        invariant OnlyTouched(old(history), old(tree), {dir}) && dir in tree && tree[dir].Dir?
        invariant tree[dir].files == old(tree)[dir].files + done
        invariant Answered(old(faults), true, true)
        decreases |names|
      {
        var name :| name in names;
        ok := WriteFile(dir, name, files[name]);
        if !ok { return false; }
        names := names - {name};
        done := done[name := files[name]];
      }
      assert done == files;
      ok := true;
    }

    /** The metadata files and the compatibility entry, on top of what the directory holds. */
    method WriteMetadata(dir: Path, metadata: Files) returns (ok: bool)
      requires dir in tree && tree[dir].Dir?
      modifies this`tree, this`history, this`faults
      ensures OnlyTouched(old(history), old(tree), {dir}) && dir in tree && tree[dir].Dir?
      ensures Answered(old(faults), ok, true)
      ensures ok ==> tree[dir] == Dir(Staged(old(tree)[dir].files, metadata))
    {
      ok := WriteAll(dir, metadata);
      if !ok { return; }
      ghost var written := tree[dir].files;
      ok := WriteFile(dir, "main.conf", COMPATIBILITY);
      assert written["main.conf" := COMPATIBILITY] == written + map["main.conf" := COMPATIBILITY];
    }

    method Stage(staging: Path, files: Files, metadata: Files) returns (ok: bool)
      requires staging !in tree
      modifies this`tree, this`history, this`faults
      ensures OnlyTouched(old(history), old(tree), {staging}) && Answered(old(faults), ok, true)
      ensures ok ==> staging in tree && tree[staging] == Dir(Staged(files, metadata))
    {
      ok := MakeTemp(staging);
      if !ok { return; }
      ok := WriteAll(staging, files);
      if !ok { return; }
      assert map[] + files == files;
      ok := WriteMetadata(staging, metadata);
    }

    // ---------------------------------------------------------------- the link

    /** `replaceSymlink`: a new link under a temporary name, renamed over the old one. */
    method ReplaceSymlink(active: Path, next: Path, target: Path) returns (ok: bool)
      requires active != next
      modifies this`tree, this`history, this`faults
      ensures old(history) <= history
      ensures forall i :: |old(history)| <= i < |history| ==>
                SameElsewhere(history[i], old(tree), {next}) || (ok && history[i] == tree)
      ensures ok ==> SameElsewhere(tree, old(tree), {active, next}) && active in tree && tree[active] == Link(target)
      ensures !ok ==> SameElsewhere(tree, old(tree), {next})
      ensures Answered(old(faults), ok, Removable(old(tree), next) && !(active in old(tree) && old(tree)[active].Dir?))
      ensures ok ==> next !in tree
      ensures !ok && next in tree ==>
                || (next in old(tree) && tree[next] == old(tree)[next])
                || faults >= old(faults) + (if active in old(tree) && old(tree)[active].Dir? then 1 else 2)
    {
      Remove(next);
      ok := Symlink(target, next);
      if !ok { return; }
      ok := Rename(next, active);
      if !ok { Remove(next); }
    }

    ghost predicate SameAt(a: Tree, b: Tree, p: Path) {
      (p in a <==> p in b) && (p in a ==> a[p] == b[p])
    }

    /** While switching, the previous directory is untouched, and the link is what it was, or points at
        the previous directory, or points at the complete new one. */
    ghost predicate Switching(t: Tree, base: Tree, ps: Paths, previous: Path, staged: Files) {
      SameAt(t, base, previous) && (SameAt(t, base, ps.active) || OnEither(t, ps, previous, staged))
    }

    ghost predicate OnEither(t: Tree, ps: Paths, previous: Path, staged: Files) {
      && ps.active in t
      && (t[ps.active] == Link(previous)
          || (t[ps.active] == Link(ps.revision) && ps.revision in t && t[ps.revision] == Dir(staged)))
    }

    /** All trees logged since `was` are admissible while switching away from `base`. */
    ghost predicate Switched(was: seq<Tree>, base: Tree, ps: Paths, previous: Path, staged: Files)
      reads this
    {
      && was <= history
      && (forall i :: |was| <= i < |history| ==> Switching(history[i], base, ps, previous, staged))
      && SameAt(tree, base, previous)
    }

    /** The previous directory is none of the paths an activation writes. */
    ghost predicate Apart(ps: Paths, previous: Path) {
      previous != ps.active && previous != ps.next && previous != ps.revision
    }

    /** The revision was rejected: switch back, reload, and only then delete it. */
    method RollBack(ps: Paths, previous: Path, ghost staged: Files) returns (outcome: Outcome)
      requires ps.Distinct()
      requires ps.active in tree && tree[ps.active] == Link(ps.revision)
      requires ps.revision in tree && tree[ps.revision] == Dir(staged)
      modifies this`tree, this`history, this`reloads, this`faults
      ensures old(history) <= history && faults >= old(faults) && SameElsewhere(tree, old(tree), {ps.active, ps.next, ps.revision})
      ensures Results(reloads) == Results(old(reloads)) + if outcome.StuckOnNew? then [] else [outcome.RolledBack?]
      ensures faults == old(faults) && outcome.RolledBack? ==> ps.revision !in tree
      ensures Apart(ps, previous) ==> SameAt(tree, old(tree), previous)
      ensures Apart(ps, previous) ==> forall i :: |old(history)| <= i < |history| ==>
                SameAt(history[i], old(tree), previous) && OnEither(history[i], ps, previous, staged)
      ensures outcome.StuckOnNew? || outcome.RollbackUnloaded? || outcome.RolledBack?
      ensures Apart(ps, previous) ==> outcome.StuckOnNew? ==> SameAt(tree, old(tree), ps.active) && SameAt(tree, old(tree), ps.revision)
      ensures Apart(ps, previous) ==> !outcome.StuckOnNew? ==> ps.active in tree && tree[ps.active] == Link(previous)
      ensures Apart(ps, previous) ==> outcome.RolledBack? ==> LastReload(ps, Link(previous))
    {
      var ok := ReplaceSymlink(ps.active, ps.next, previous);
      if !ok { return StuckOnNew; }
      ok := TestAndReload();
      if !ok { return RollbackUnloaded; }
      RemoveAll(ps.revision);
      outcome := RolledBack;
    }

    /** The link could not be switched: delete the revision and point the link at the previous one again. */
    method Abandon(ps: Paths, previous: Path) returns (outcome: Outcome)
      requires ps.Distinct()
      modifies this`tree, this`history, this`faults
      ensures old(history) <= history && faults >= old(faults) && SameElsewhere(tree, old(tree), {ps.active, ps.next, ps.revision})
      ensures faults == old(faults) ==> ps.revision !in tree
      ensures Apart(ps, previous) ==> SameAt(tree, old(tree), previous)
      ensures Apart(ps, previous) ==> forall i :: |old(history)| <= i < |history| ==>
                && SameAt(history[i], old(tree), previous)
                && (SameAt(history[i], old(tree), ps.active) || (ps.active in history[i] && history[i][ps.active] == Link(previous)))
      ensures outcome.NotSwitched? || outcome.NotRestored?
      ensures Apart(ps, previous) ==> outcome.NotSwitched? ==> ps.active in tree && tree[ps.active] == Link(previous)
      ensures Apart(ps, previous) ==> outcome.NotRestored? ==> SameAt(tree, old(tree), ps.active)
    {
      RemoveAll(ps.revision);
      var ok := ReplaceSymlink(ps.active, ps.next, previous);
      outcome := if ok then NotSwitched else NotRestored;
    }

    /** The last configtest and reload succeeded, with the link as given. */
    ghost predicate LastReload(ps: Paths, link: Node)
      reads this
    {
      && |reloads| > 0 && reloads[|reloads| - 1].1
      && var t := reloads[|reloads| - 1].0; ps.active in t && t[ps.active] == link
    }

    /** Switch, test, reload and roll back, once the revision directory is published. */
    method Switch(ps: Paths, previous: Path, ghost staged: Files) returns (outcome: Outcome)
      requires ps.Distinct()
      requires ps.revision in tree && tree[ps.revision] == Dir(staged)
      modifies this`tree, this`history, this`reloads, this`faults
      ensures old(history) <= history
      ensures SameElsewhere(tree, old(tree), {ps.active, ps.next, ps.revision})
      ensures !outcome.Refused? && Results(reloads) == Results(old(reloads)) + Verdicts(outcome)
      ensures outcome.Applied? ==> OnNew(ps, staged) && reloads == old(reloads) + [(tree, true)]
      ensures Answered(old(faults), outcome.Applied?,
                       Removable(old(tree), ps.next) && !(ps.active in old(tree) && old(tree)[ps.active].Dir?))
      ensures faults == old(faults) && !outcome.Applied? ==> ps.revision !in tree
      ensures Apart(ps, previous) ==> Switched(old(history), old(tree), ps, previous, staged)
      ensures Apart(ps, previous) ==> outcome.StuckOnNew? ==> OnNew(ps, staged)
      ensures Apart(ps, previous) ==> outcome.NotSwitched? || outcome.RolledBack? || outcome.RollbackUnloaded? ==>
                ps.active in tree && tree[ps.active] == Link(previous)
      ensures Apart(ps, previous) ==> outcome.RolledBack? ==> LastReload(ps, Link(previous))
      ensures Apart(ps, previous) ==> outcome.NotRestored? ==> SameAt(tree, old(tree), ps.active)
    {
      var ok := ReplaceSymlink(ps.active, ps.next, ps.revision);
      if !ok {
        outcome := Abandon(ps, previous);
        return;
      }
      ok := TestAndReload();
      if ok { return Applied; }
      outcome := RollBack(ps, previous, staged);
    }

    /** The link is on the complete new directory. */
    ghost predicate OnNew(ps: Paths, staged: Files)
      reads this
    {
      && ps.active in tree && tree[ps.active] == Link(ps.revision)
      && ps.revision in tree && tree[ps.revision] == Dir(staged)
    }

    // ---------------------------------------------------------------- the whole activation

    /** `prepareActiveLink`: where the link points now; a real directory is moved aside first. */
    method PrepareActiveLink(ps: Paths) returns (previous: Result<Path>)
      requires ps.Distinct()
      modifies this`tree, this`history, this`faults
      ensures old(history) <= history
      ensures forall i :: |old(history)| <= i < |history| ==> history[i] == tree
      ensures previous.Ok? && ps.active in old(tree) && old(tree)[ps.active].Link? ==>
                tree == old(tree) && previous.value == resolve(old(tree)[ps.active].target)
      ensures previous.Ok? && !(ps.active in old(tree) && old(tree)[ps.active].Link?) ==>
                && ps.active in old(tree) && old(tree)[ps.active].Dir? && previous.value == ps.legacy
                && tree == (old(tree) - {ps.active})[ps.legacy := old(tree)[ps.active]]
                && Renames(old(tree), ps.active, ps.legacy)
      ensures previous.Err? ==> tree == old(tree)
      ensures Answered(old(faults), previous.Ok?,
                       ps.active in old(tree) && (old(tree)[ps.active].Link?
                                                  || (old(tree)[ps.active].Dir? && Renames(old(tree), ps.active, ps.legacy))))
    {
      var readable := Attempt();
      if !readable { return Err("inspect active policy"); }
      if ps.active !in tree { return Err("inspect active policy"); }
      match tree[ps.active]
      case Link(target) => return Ok(resolve(target));
      case Plain => return Err("active policy path must be a directory or symlink");
      case Dir(_) =>
        var ok := Rename(ps.active, ps.legacy);
        if !ok { return Err("migrate legacy active policy"); }
        previous := Ok(ps.legacy);
    }

    /** Stage and publish: the active link, whatever it is, is not involved. */
    method Publish(ps: Paths, files: Files, metadata: Files) returns (ok: bool)
      requires ps.Distinct() && ps.staging !in tree
      modifies this`tree, this`history, this`faults
      ensures OnlyTouched(old(history), old(tree), {ps.staging, ps.revision})
      ensures ok ==> ps.revision !in old(tree) && ps.staging !in tree
                     && ps.revision in tree && tree[ps.revision] == Dir(Staged(files, metadata))
      ensures !ok ==> SameElsewhere(tree, old(tree), {ps.staging})
      ensures Answered(old(faults), ok, ps.revision !in old(tree))
      ensures faults == old(faults) && !ok ==> SameElsewhere(tree, old(tree), {})
      ensures ps.revision in old(tree) ==>
                forall i :: |old(history)| <= i < |history| ==> SameElsewhere(history[i], old(tree), {ps.staging})
    {
      ok := Stage(ps.staging, files, metadata);
      if ok && ps.revision in tree { ok := false; }
      if ok { ok := Rename(ps.staging, ps.revision); }
      if !ok { RemoveAll(ps.staging); }
    }

    /** An active link that resolves to an existing directory outside the paths of this activation. */
    ghost predicate Resolves(t: Tree, ps: Paths)
      reads this
    {
      && ps.active in t && t[ps.active].Link?
      && var previous := resolve(t[ps.active].target);
         && previous in t && t[previous].Dir? && resolve(previous) == previous
         && previous != ps.active && previous != ps.next
    }

    /** The link resolves to the untouched previous directory or to the complete new one. */
    ghost predicate Serving(t: Tree, ps: Paths, was: Tree, staged: Files)
      reads this
    {
      && ps.active in t && t[ps.active].Link?
      && var at := resolve(t[ps.active].target);
         && at in t && t[at].Dir?
         && ((at in was && t[at] == was[at]) || (at == ps.revision && t[at] == Dir(staged)))
    }

    /** The link resolves where it did before, and that directory is untouched. */
    ghost predicate OnPrevious(ps: Paths, was: Tree)
      requires ps.active in was && was[ps.active].Link?
      reads this
    {
      && ps.active in tree && tree[ps.active].Link?
      && var previous := resolve(was[ps.active].target);
         resolve(tree[ps.active].target) == previous && SameAt(tree, was, previous)
    }

    lemma ServingUntouched(t: Tree, was: Tree, ps: Paths, changed: set<Path>, staged: Files)
      requires Resolves(was, ps) && SameElsewhere(t, was, changed)
      requires ps.active !in changed && resolve(was[ps.active].target) !in changed
      ensures Serving(t, ps, was, staged)
    {
    }

    lemma ServingAll(trees: seq<Tree>, from: nat, was: Tree, ps: Paths, changed: set<Path>, staged: Files)
      requires Resolves(was, ps) && forall i :: from <= i < |trees| ==> SameElsewhere(trees[i], was, changed)
      requires ps.active !in changed && resolve(was[ps.active].target) !in changed
      ensures forall i :: from <= i < |trees| ==> Serving(trees[i], ps, was, staged)
    {
      forall i | from <= i < |trees| ensures Serving(trees[i], ps, was, staged) {
        ServingUntouched(trees[i], was, ps, changed, staged);
      }
    }

    lemma ServingSwitching(t: Tree, was: Tree, ps: Paths, staged: Files)
      requires Resolves(was, ps) && resolve(ps.revision) == ps.revision
      requires Switching(t, was, ps, resolve(was[ps.active].target), staged)
      ensures Serving(t, ps, was, staged)
    {
    }

    /** The part of `applyBundleFiles` after the revision directory is published. */
    method Activate(ps: Paths, ghost staged: Files) returns (outcome: Outcome)
      requires ps.Distinct() && resolve(ps.revision) == ps.revision
      requires ps.revision in tree && tree[ps.revision] == Dir(staged) && staged != map[]
      modifies this`tree, this`history, this`reloads, this`faults
      ensures old(history) <= history
      ensures Answered(old(faults), outcome.Applied?, old(Activatable(tree, ps)))
      ensures Results(reloads) == Results(old(reloads)) + Verdicts(outcome)
      ensures outcome.Applied? ==> OnNew(ps, staged) && reloads == old(reloads) + [(tree, true)]
      ensures faults == old(faults) && !outcome.Applied? ==> ps.revision !in tree && SameAt(tree, old(tree), ps.staging)
      ensures old(LinkedElsewhere(tree, ps)) ==>
                && (forall i :: |old(history)| <= i < |history| ==> Serving(history[i], ps, old(tree), staged))
                && (if outcome.Applied? || outcome.StuckOnNew? then OnNew(ps, staged) else OnPrevious(ps, old(tree)))
                && (outcome.RolledBack? ==> LastReload(ps, Link(resolve(old(tree)[ps.active].target))))
      ensures ps.active in old(tree) && old(tree)[ps.active].Dir? ==>
                && (forall i :: |old(history)| <= i < |history| ==> Kept(history[i], ps, old(tree)[ps.active], staged))
                && Migrated(ps, outcome, old(tree)[ps.active], staged)
    {
      ghost var was := tree;
      var previous := PrepareActiveLink(ps);
      if previous.Err? {
        RemoveAll(ps.revision);
        if LinkedElsewhere(was, ps) {
          ServingUntouched(was, was, ps, {ps.revision}, staged);
          ServingUntouched(tree, was, ps, {ps.revision}, staged);
        }
        return Refused;
      }
      ghost var before, base := history, tree;
      outcome := Switch(ps, previous.value, staged);
      if ps.active in was && was[ps.active].Dir? {
        forall i | |before| <= i < |history| ensures Kept(history[i], ps, was[ps.active], staged) {
          assert Switching(history[i], base, ps, ps.legacy, staged);
        }
      }
      if LinkedElsewhere(was, ps) {
        ServingUntouched(was, was, ps, {}, staged);
        forall i | |before| <= i < |history| ensures Serving(history[i], ps, was, staged) {
          ServingSwitching(history[i], was, ps, staged);
        }
      }
    }

    /** Where an activation that found a real directory leaves it. */
    ghost predicate Migrated(ps: Paths, outcome: Outcome, contents: Node, staged: Files)
      reads this
    {
      match outcome
      case Refused => ps.active in tree && tree[ps.active] == contents
      case NotRestored => ps.active !in tree && ps.legacy in tree && tree[ps.legacy] == contents
      case Applied => OnNew(ps, staged) && ps.legacy in tree && tree[ps.legacy] == contents
      case StuckOnNew => OnNew(ps, staged) && ps.legacy in tree && tree[ps.legacy] == contents
      case _ => ps.active in tree && tree[ps.active] == Link(ps.legacy) && ps.legacy in tree && tree[ps.legacy] == contents
    }

    /** The contents of an active directory from before links are at the active path, or kept aside while
        the active path is absent, a link to them, or a link to the complete new revision. */
    ghost predicate Kept(t: Tree, ps: Paths, contents: Node, staged: Files)
      reads this
    {
      || (ps.active in t && t[ps.active] == contents)
      || (ps.legacy in t && t[ps.legacy] == contents && (ps.active !in t || OnEither(t, ps, ps.legacy, staged)))
    }

    ghost predicate LinkedElsewhere(t: Tree, ps: Paths)
      reads this
    {
      Resolves(t, ps) && resolve(t[ps.active].target) != ps.revision
    }

    /** `applyBundleFiles`. When the active path is a link that resolves: whatever fails and whenever the
        process stops, the link resolves to a complete directory; success leaves it on exactly the staged
        files, which passed configtest and reload; every other outcome but one leaves it where it was.
        When it is a real directory, its contents are never lost and end up behind the link. */
    method ApplyBundleFiles(ps: Paths, safe: bool, files: Files, metadata: Files) returns (outcome: Outcome)
      requires ps.Distinct() && ps.staging !in tree && resolve(ps.revision) == ps.revision
      modifies this`tree, this`history, this`reloads, this`faults
      ensures old(history) <= history
      ensures !safe ==> outcome.Refused? && tree == old(tree) && history == old(history)
      ensures Answered(old(faults), outcome.Applied?, safe && old(Ready(tree, ps)))
      ensures Results(reloads) == Results(old(reloads)) + Verdicts(outcome)
      ensures outcome.Applied? ==>
                && safe && ps.revision !in old(tree) && OnNew(ps, Staged(files, metadata))
                && reloads == old(reloads) + [(tree, true)]
      ensures faults == old(faults) && !outcome.Applied? ==> SameAt(tree, old(tree), ps.revision) && ps.staging !in tree
      ensures old(Resolves(tree, ps)) ==>
                && (forall i :: |old(history)| <= i < |history| ==>
                      Serving(history[i], ps, old(tree), Staged(files, metadata)))
                && (if outcome.Applied? || outcome.StuckOnNew?
                    then OnNew(ps, Staged(files, metadata)) && ps.revision !in old(tree)
                    else OnPrevious(ps, old(tree)))
                && (outcome.RolledBack? ==> LastReload(ps, Link(resolve(old(tree)[ps.active].target))))
      ensures ps.active in old(tree) && old(tree)[ps.active].Dir? ==>
                && (forall i :: |old(history)| <= i < |history| ==>
                      Kept(history[i], ps, old(tree)[ps.active], Staged(files, metadata)))
                && Migrated(ps, outcome, old(tree)[ps.active], Staged(files, metadata))
    {
      if !safe { return Refused; }
      outcome := InstallRevision(ps, files, metadata);
    }

    /** The rest of `applyBundleFiles`, behind the checks of names. */
    method InstallRevision(ps: Paths, files: Files, metadata: Files) returns (outcome: Outcome)
      requires ps.Distinct() && ps.staging !in tree && resolve(ps.revision) == ps.revision
      modifies this`tree, this`history, this`reloads, this`faults
      ensures old(history) <= history
      ensures Answered(old(faults), outcome.Applied?, old(Ready(tree, ps)))
      ensures Results(reloads) == Results(old(reloads)) + Verdicts(outcome)
      ensures outcome.Applied? ==>
                && ps.revision !in old(tree) && OnNew(ps, Staged(files, metadata))
                && reloads == old(reloads) + [(tree, true)]
      ensures faults == old(faults) && !outcome.Applied? ==> SameAt(tree, old(tree), ps.revision) && ps.staging !in tree
      ensures old(Resolves(tree, ps)) ==>
                && (forall i :: |old(history)| <= i < |history| ==>
                      Serving(history[i], ps, old(tree), Staged(files, metadata)))
                && (if outcome.Applied? || outcome.StuckOnNew?
                    then OnNew(ps, Staged(files, metadata)) && ps.revision !in old(tree)
                    else OnPrevious(ps, old(tree)))
                && (outcome.RolledBack? ==> LastReload(ps, Link(resolve(old(tree)[ps.active].target))))
      ensures ps.active in old(tree) && old(tree)[ps.active].Dir? ==>
                && (forall i :: |old(history)| <= i < |history| ==>
                      Kept(history[i], ps, old(tree)[ps.active], Staged(files, metadata)))
                && Migrated(ps, outcome, old(tree)[ps.active], Staged(files, metadata))
    {
      ghost var was := tree;
      var ok := Publish(ps, files, metadata);
      ghost var published := history;
      if Resolves(was, ps) {
        var changed := if ps.revision in was then {ps.staging} else {ps.staging, ps.revision};
        ServingAll(history, |old(history)|, was, ps, changed, Staged(files, metadata));
      }
      if !ok { return Refused; }
      assert "main.conf" in Staged(files, metadata);
      ghost var base := tree;
      if Resolves(was, ps) { StillElsewhere(was, base, ps); }
      ReadyIsActivatable(was, base, ps, Staged(files, metadata));
      outcome := Activate(ps, Staged(files, metadata));
      if Resolves(was, ps) {
        SameServingAll(history, |published|, base, was, ps, Staged(files, metadata));
        if !outcome.Applied? && !outcome.StuckOnNew? { PreviousBefore(ps, base, was); }
      }
    }

    lemma StillElsewhere(was: Tree, base: Tree, ps: Paths)
      requires ps.Distinct() && SameElsewhere(base, was, {ps.staging, ps.revision})
      requires Resolves(was, ps) && ps.revision !in was && ps.staging !in was
      ensures LinkedElsewhere(base, ps)
    {
      assert SameAt(base, was, ps.active) && SameAt(base, was, resolve(was[ps.active].target));
    }

    lemma PreviousBefore(ps: Paths, base: Tree, was: Tree)
      requires ps.Distinct() && SameElsewhere(base, was, {ps.staging, ps.revision})
      requires Resolves(was, ps) && ps.revision !in was && ps.staging !in was && LinkedElsewhere(base, ps) && OnPrevious(ps, base)
      ensures OnPrevious(ps, was)
    {
      assert SameAt(base, was, ps.active) && SameAt(base, was, resolve(was[ps.active].target));
    }

    /** A tree was ready exactly when it can be activated after publishing. */
    lemma ReadyIsActivatable(was: Tree, base: Tree, ps: Paths, staged: Files)
      requires ps.Distinct() && SameElsewhere(base, was, {ps.staging, ps.revision})
      requires ps.revision !in was && ps.revision in base && base[ps.revision] == Dir(staged) && staged != map[]
      ensures Ready(was, ps) <==> Activatable(base, ps)
    {
      assert SameAt(base, was, ps.active) && SameAt(base, was, ps.next) && (ps.legacy == ps.revision || SameAt(base, was, ps.legacy));
    }

    /** Publishing adds only the new revision directory, so serving since then is serving since before. */
    lemma SameServingAll(trees: seq<Tree>, from: nat, base: Tree, was: Tree, ps: Paths, staged: Files)
      requires SameElsewhere(base, was, {ps.staging, ps.revision})
      requires ps.staging !in base && ps.revision in base && base[ps.revision] == Dir(staged)
      requires forall i :: from <= i < |trees| ==> Serving(trees[i], ps, base, staged)
      ensures forall i :: from <= i < |trees| ==> Serving(trees[i], ps, was, staged)
    {
      forall i | from <= i < |trees| ensures Serving(trees[i], ps, was, staged) {
        assert Serving(trees[i], ps, base, staged);
      }
    }
  }

  /** The file maps of a base and an override artifact become one, unless they share a name (`ApplySplit`). */
  method MergeFiles(base: Files, override: Files) returns (merged: Result<Files>)
    ensures merged.Ok? <==> forall n :: n in base ==> n !in override
    ensures merged.Ok? ==> forall n :: n in merged.value <==> n in base || n in override
    ensures merged.Ok? ==> forall n :: n in merged.value ==>
              merged.value[n] == if n in base then base[n] else override[n]
  {
    var files := base;
    var names := override.Keys;
    while names != {}
      invariant names <= override.Keys
      invariant forall n :: n in override && n !in names ==> n !in base
      invariant forall n :: n in files <==> n in base || (n in override && n !in names)
      invariant forall n :: n in files ==> files[n] == if n in base then base[n] else override[n]
      decreases |names|
    {
      var name :| name in names;
      if name in files { return Err("duplicate split policy file"); }
      files := files[name := override[name]];
      names := names - {name};
    }
    merged := Ok(files);
  }
}
