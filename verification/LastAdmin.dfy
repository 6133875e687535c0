/** User updates and deletes as interleaved transactions with row locks: the last active administrator
    of an enterprise cannot disappear (internal/manager/store_identity.go). A transaction reads and
    locks its target row, locks the other active administrators one row at a time when it is about to
    take an administrator away, and commits or rolls back; writes become visible at commit. */
module LastAdmin {
  import opened Prelude

  datatype Role = SystemAdmin | EnterpriseAdmin | EnterpriseUser

  datatype User = User(enterprise: string, role: Role, active: bool, deleted: bool)

  datatype Request = Update(role: Role, active: bool) | Delete

  datatype Phase =
    | Begun
    | Scanning(row: User, found: Option<string>)   // target locked and read; locking other administrators
    | Ready(row: User, found: Option<string>)      // checks passed, about to write and commit

  datatype Tx = Tx(enterprise: string, target: string, request: Request, phase: Phase)

  /** Committed rows, row locks by transaction id, transactions in progress, terminated enterprises. */
  datatype State = State(users: map<string, User>, locks: map<string, nat>, txs: map<nat, Tx>, terminated: set<string>)

  predicate ActiveAdmin(users: map<string, User>, id: string, enterprise: string) {
    && id in users && users[id].enterprise == enterprise
    && users[id].role == EnterpriseAdmin && users[id].active && !users[id].deleted
  }

  ghost predicate HasAdmin(s: State, enterprise: string) {
    exists id :: id in s.users && s.users[id].enterprise == enterprise && s.users[id].role == EnterpriseAdmin
                 && s.users[id].active && !s.users[id].deleted
  }

  /** The request takes an active administrator away. */
  predicate Demotes(row: User, r: Request) {
    row.role == EnterpriseAdmin && row.active && (r.Delete? || r.role != EnterpriseAdmin || !r.active)
  }

  function Written(row: User, r: Request): User {
    match r
    case Update(role, active) => row.(role := role, active := active)
    case Delete => row.(active := false, deleted := true)
  }

  predicate Free(s: State, id: string, t: nat) { id in s.locks ==> s.locks[id] == t }

  function Release(locks: map<string, nat>, t: nat): map<string, nat> {
    map id | id in locks && locks[id] != t :: locks[id]
  }

  // ---------------------------------------------------------------- steps

  ghost predicate Begin(s: State, s': State, t: nat, tx: Tx) {
    && t !in s.txs && tx.phase == Begun && tx.enterprise != ""
    && (tx.request.Update? ==> tx.request.role != SystemAdmin)
    && s' == s.(txs := s.txs[t := tx])
  }

  /** SELECT role, is_active ... FOR UPDATE on the target row. */
  ghost predicate LockTarget(s: State, s': State, t: nat) {
    && t in s.txs && s.txs[t].phase.Begun?
    && var tx := s.txs[t];
       && tx.target in s.users && Free(s, tx.target, t)
       && var row := s.users[tx.target];
          && row.enterprise == tx.enterprise && row.role != SystemAdmin && !row.deleted
          && s' == s.(locks := s.locks[tx.target := t],
                      txs := s.txs[t := tx.(phase := if Demotes(row, tx.request) then Scanning(row, None) else Ready(row, None))])
  }

  /** One row of `lockOtherActiveEnterpriseAdmin`: waits while another transaction holds it. */
  ghost predicate LockOther(s: State, s': State, t: nat, id: string) {
    && t in s.txs && s.txs[t].phase.Scanning?
    && var tx := s.txs[t];
       && id != tx.target && ActiveAdmin(s.users, id, tx.enterprise) && Free(s, id, t)
       && s' == s.(locks := s.locks[id := t], txs := s.txs[t := tx.(phase := Scanning(tx.phase.row, Some(id)))])
  }

  /** The scan ended and found another active administrator. */
  ghost predicate EndScan(s: State, s': State, t: nat) {
    && t in s.txs && s.txs[t].phase.Scanning? && s.txs[t].phase.found.Some?
    && var tx := s.txs[t];
       s' == s.(txs := s.txs[t := tx.(phase := Ready(tx.phase.row, tx.phase.found))])
  }

  ghost predicate Commit(s: State, s': State, t: nat) {
    && t in s.txs && s.txs[t].phase.Ready? && s.txs[t].target in s.users
    && var tx := s.txs[t];
       s' == s.(users := s.users[tx.target := Written(s.users[tx.target], tx.request)],
                locks := Release(s.locks, t), txs := s.txs - {t})
  }

  /** Any error, the last-administrator refusal, a deadlock victim, a lost connection. */
  ghost predicate Abort(s: State, s': State, t: nat) {
    t in s.txs && s' == s.(locks := Release(s.locks, t), txs := s.txs - {t})
  }

  ghost predicate Create(s: State, s': State, id: string, u: User) {
    id !in s.users && s' == s.(users := s.users[id := u])
  }

  /** Termination deactivates the enterprise's users; it waits for their row locks. */
  ghost predicate Terminate(s: State, s': State, enterprise: string) {
    && (forall id :: id in s.users && s.users[id].enterprise == enterprise ==> id !in s.locks)
    && s' == s.(terminated := s.terminated + {enterprise},
                users := map id | id in s.users ::
                  if s.users[id].enterprise == enterprise && s.users[id].role != SystemAdmin
                  then s.users[id].(active := false) else s.users[id])
  }

  ghost predicate Next(s: State, s': State) {
    || (exists t, tx :: Begin(s, s', t, tx)) || (exists t :: LockTarget(s, s', t))
    || (exists t, id :: LockOther(s, s', t, id)) || (exists t :: EndScan(s, s', t))
    || (exists t :: Commit(s, s', t)) || (exists t :: Abort(s, s', t))
    || (exists id, u :: Create(s, s', id, u)) || (exists e :: Terminate(s, s', e))
  }

  ghost predicate Init(s: State) { s.locks == map[] && s.txs == map[] && s.terminated == {} }

  // ---------------------------------------------------------------- invariant

  /** What a transaction knows: its target is locked and unchanged since it was read; when it is about to
      take an administrator away, the other administrator it found is locked and still one. */
  ghost predicate TxInv(s: State, t: nat, tx: Tx) {
    !tx.phase.Begun? ==>
      && tx.target in s.locks && s.locks[tx.target] == t
      && tx.target in s.users && s.users[tx.target] == tx.phase.row
      && (tx.phase.found.Some? ==>
            && tx.phase.found.value != tx.target
            && tx.phase.found.value in s.locks && s.locks[tx.phase.found.value] == t
            && ActiveAdmin(s.users, tx.phase.found.value, tx.enterprise))
      && (tx.phase.Ready? && Demotes(tx.phase.row, tx.request) ==> tx.phase.found.Some?)
      && tx.phase.row.enterprise == tx.enterprise && !tx.phase.row.deleted
      && tx.phase.row.role != SystemAdmin
  }

  ghost predicate Inv(s: State) {
    forall t :: t in s.txs ==> TxInv(s, t, s.txs[t])
  }

  /** A step that leaves every row locked by `t` alone keeps what `t` knows. */
  lemma TxKept(s: State, s': State, t: nat, tx: Tx)
    requires TxInv(s, t, tx)
    requires forall id :: id in s.locks && s.locks[id] == t ==>
               && id in s'.locks && s'.locks[id] == t
               && (id in s.users ==> id in s'.users && s'.users[id] == s.users[id])
    ensures TxInv(s', t, tx)
  {
  }

  lemma LockInv(s: State, s': State, t: nat, id: string, tx': Tx)
    requires Inv(s) && Free(s, id, t) && t in s.txs
    requires s' == s.(locks := s.locks[id := t], txs := s.txs[t := tx'])
    requires TxInv(s', t, tx')
    ensures Inv(s')
  {
    forall u | u in s'.txs ensures TxInv(s', u, s'.txs[u]) {
      if u != t { TxKept(s, s', u, s.txs[u]); }
    }
  }

  lemma CommitInv(s: State, s': State, t: nat)
    requires Inv(s) && Commit(s, s', t)
    ensures Inv(s')
  {
    assert TxInv(s, t, s.txs[t]);
    forall u | u in s'.txs ensures TxInv(s', u, s'.txs[u]) { TxKept(s, s', u, s.txs[u]); }
  }

  lemma AbortInv(s: State, s': State, t: nat)
    requires Inv(s) && Abort(s, s', t)
    ensures Inv(s')
  {
    forall u | u in s'.txs ensures TxInv(s', u, s'.txs[u]) { TxKept(s, s', u, s.txs[u]); }
  }

  lemma TableInv(s: State, s': State)
    requires Inv(s) && ((exists id, u :: Create(s, s', id, u)) || (exists e :: Terminate(s, s', e)))
    ensures Inv(s')
  {
    forall t | t in s'.txs ensures TxInv(s', t, s'.txs[t]) { TxKept(s, s', t, s.txs[t]); }
  }

  lemma NextInv(s: State, s': State)
    requires Inv(s) && Next(s, s')
    ensures Inv(s')
  {
    if t :| LockTarget(s, s', t) { LockInv(s, s', t, s.txs[t].target, s'.txs[t]); }
    else if t, id :| LockOther(s, s', t, id) { LockInv(s, s', t, id, s'.txs[t]); }
    else if t :| Commit(s, s', t) { CommitInv(s, s', t); }
    else if t :| Abort(s, s', t) { AbortInv(s, s', t); }
    else if (exists id, u :: Create(s, s', id, u)) || (exists e :: Terminate(s, s', e)) { TableInv(s, s'); }
    else {
      forall t | t in s'.txs ensures TxInv(s', t, s'.txs[t]) {
        if t in s.txs { assert TxInv(s, t, s.txs[t]); }
      }
    }
  }

  /** One step never takes an enterprise that stays active from some active administrator to none. */
  lemma StepKeepsAdmin(s: State, s': State, enterprise: string)
    requires Inv(s) && Next(s, s') && HasAdmin(s, enterprise) && enterprise !in s'.terminated
    ensures HasAdmin(s', enterprise)
  {
    var w :| w in s.users && s.users[w].enterprise == enterprise && s.users[w].role == EnterpriseAdmin
             && s.users[w].active && !s.users[w].deleted;
    if t :| Commit(s, s', t) {
      var tx := s.txs[t];
      assert TxInv(s, t, tx);
      if w == tx.target && Demotes(tx.phase.row, tx.request) {
        assert ActiveAdmin(s'.users, tx.phase.found.value, enterprise);
      } else {
        assert ActiveAdmin(s'.users, w, enterprise);
      }
    } else {
      assert ActiveAdmin(s'.users, w, enterprise);
    }
  }

  /** No interleaving of updates, deletes, creations and terminations leaves an enterprise that is still
      active without an active administrator once it has had one. */
  lemma {:induction false} LastAdministratorStays(trace: seq<State>, i: nat, j: nat, enterprise: string)
    requires |trace| > 0 && Init(trace[0]) && i <= j < |trace|
    requires forall k :: 0 <= k < |trace| - 1 ==> Next(trace[k], trace[k + 1])
    requires HasAdmin(trace[i], enterprise) && enterprise !in trace[j].terminated
    ensures HasAdmin(trace[j], enterprise)
    decreases j - i
  {
    if i < j {
      TerminatedStays(trace[j - 1], trace[j], enterprise);
      LastAdministratorStays(trace, i, j - 1, enterprise);
      RunInv(trace, j - 1);
      StepKeepsAdmin(trace[j - 1], trace[j], enterprise);
    }
  }

  lemma TerminatedStays(s: State, s': State, enterprise: string)
    requires Next(s, s')
    ensures enterprise in s.terminated ==> enterprise in s'.terminated
  {
  }

  lemma {:induction false} RunInv(trace: seq<State>, i: nat)
    requires |trace| > 0 && Init(trace[0]) && i < |trace|
    requires forall k :: 0 <= k < |trace| - 1 ==> Next(trace[k], trace[k + 1])
    ensures Inv(trace[i])
  {
    if i > 0 {
      RunInv(trace, i - 1);
      NextInv(trace[i - 1], trace[i]);
    }
  }
}
